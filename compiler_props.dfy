/** What the compiler's walks promise, proved about the functions of module
    `Compiler`. */
module CompilerProps {
  import opened Wrappers
  import opened Xml
  import opened Linear
  import opened Compiler
  import PyStr
  import RefDb
  import Urn

  // ---------------------------------------------------------------------
  // Start and end

  /** Every range `resolve_range` returns starts and ends in one file. */
  lemma RangesInOneFile(rows: seq<RefDb.MappingRow>, target: string)
    ensures forall x :: x in Urn.ResolveRangeSpec(rows, target) && x.Range? ==>
      x.range.start.project == x.range.end.project && x.range.start.fileName == x.range.end.fileName
  {
    var q := Urn.Qualifier(target);
    match Urn.RangeEndsOf(q.0)
    case None =>
      var s := Urn.Resolve(rows, Urn.Requalify(q.0, q.1));
      assert Urn.ResolveRangeSpec(rows, target) == Urn.Singles(s);
    case Some(ends) =>
      Urn.RangedResolvesToPairs(rows, target, ends);
  }

  /** The candidate `prioritize_range` picks is one of the resolver's
      results: a range in one file, or a single URN. */
  lemma BestIsResolved(rows: seq<RefDb.MappingRow>, target: string, priority: seq<string>)
    requires Urn.PrioritizeRange(Candidates(Urn.ResolveRangeSpec(rows, target)), priority, false).Some?
    ensures var items := Candidates(Urn.ResolveRangeSpec(rows, target));
      var best := Urn.PrioritizeRange(items, priority, false).value.best;
      && Urn.ProjectName(best) in priority
      && (best.RangeCandidate? ==> Urn.Range(best.range) in Urn.ResolveRangeSpec(rows, target))
      && (best.UrnCandidate? ==> Urn.Single(best.urn) in Urn.ResolveRangeSpec(rows, target))
      && !best.ReferenceCandidate?
  {
    var hits := Urn.ResolveRangeSpec(rows, target);
    var items := Candidates(hits);
    Urn.PrioritizeRangeBest(items, priority);
    var best := Urn.PrioritizeRange(items, priority, false).value.best;
    var k :| 0 <= k < |items| && items[k] == best;
    assert hits[k] in hits;
  }

  /** A transclusion range found by `_get_start_and_end_from_ranges` lies in
      one file of one project, and that project is in the priority list. */
  lemma StartAndEndInOneFile(rows: seq<RefDb.MappingRow>, priority: seq<string>, target: string, targetEnd: Option<string>)
    requires StartAndEnd(rows, priority, target, targetEnd).Ok?
    ensures var r := StartAndEnd(rows, priority, target, targetEnd).value;
      && r.start.project == r.end.project && r.start.fileName == r.end.fileName
      && r.start.project in priority
  {
    var hits := Urn.ResolveRangeSpec(rows, target);
    var items := Candidates(hits);
    BestIsResolved(rows, target, priority);
    RangesInOneFile(rows, target);
    var best := Urn.PrioritizeRange(items, priority, false).value.best;
    if best.UrnCandidate? && targetEnd.Some? {
      EndInStartFileSameFile(rows, best.urn, targetEnd.value);
    }
  }

  /** The end found for `targetEnd` is in the start's project and file. */
  lemma EndInStartFileSameFile(rows: seq<RefDb.MappingRow>, start: Urn.ResolvedUrn, targetEnd: string)
    requires EndInStartFile(rows, start, targetEnd).Ok?
    ensures var r := EndInStartFile(rows, start, targetEnd).value;
      r.start == start && r.end.project == start.project && r.end.fileName == start.fileName
  {
    BestIsResolved(rows, targetEnd, [start.project]);
  }

  /** Without `targetEnd`, a single URN is both start and end and a range is
      taken whole; with it, a target that resolves to a range is refused. */
  lemma StartAndEndCases(rows: seq<RefDb.MappingRow>, priority: seq<string>, target: string, targetEnd: Option<string>)
    requires Urn.PrioritizeRange(Candidates(Urn.ResolveRangeSpec(rows, target)), priority, false).Some?
    ensures var best := Urn.PrioritizeRange(Candidates(Urn.ResolveRangeSpec(rows, target)), priority, false).value.best;
      var r := StartAndEnd(rows, priority, target, targetEnd);
      && (best.RangeCandidate? && targetEnd.None? ==> r == Ok(best.range))
      && (best.RangeCandidate? && targetEnd.Some? ==> r.Err?)
      && (best.UrnCandidate? && targetEnd.None? ==> r == Ok(Urn.ResolvedUrnRange(best.urn, best.urn)))
      && (best.UrnCandidate? && targetEnd.Some? ==> r == EndInStartFile(rows, best.urn, targetEnd.value))
  {
    BestIsResolved(rows, target, priority);
  }

  /** The target must resolve to something in the priority list. */
  lemma StartAndEndNeedsPrioritizedTarget(rows: seq<RefDb.MappingRow>, priority: seq<string>, target: string, targetEnd: Option<string>)
    requires forall x :: x in Urn.ResolveRangeSpec(rows, target) ==> Urn.ProjectName(ToCandidate(x)) !in priority
    ensures StartAndEnd(rows, priority, target, targetEnd).Err?
  {
    var items := Candidates(Urn.ResolveRangeSpec(rows, target));
    if Urn.ResolveRangeSpec(rows, target) != [] && Urn.PrioritizeRange(items, priority, false).Some? {
      Urn.PrioritizeRangeBest(items, priority);
      assert false;
    }
  }

  // ---------------------------------------------------------------------
  // The base processor

  /** The tree the base processor copies a transclusion-free tree into: the
      same tags, attributes and texts, no tail on the root, a child's tail
      only when it is non-empty, and the compiled root's namespace map on
      every element. */
  function Normalized(e: Element, nsMap: map<string, string>): (r: Element)
    decreases e
  {
    Element(e.tag, e.attrs, e.text, None,
      seq(|e.children|, i requires 0 <= i < |e.children| => WithTail(Normalized(e.children[i], nsMap), e.children[i])),
      nsMap)
  }

  /** Copying a copy changes nothing. */
  lemma {:induction false} NormalizedIdempotent(e: Element, nsMap: map<string, string>)
    ensures Normalized(Normalized(e, nsMap), nsMap) == Normalized(e, nsMap)
    decreases e
  {
    var n := Normalized(e, nsMap);
    forall i | 0 <= i < |e.children|
      ensures WithTail(Normalized(n.children[i], nsMap), n.children[i]) == n.children[i]
    {
      NormalizedIdempotent(e.children[i], nsMap);
    }
  }

  /** The base `_process_element` copies a tree without transclusions. */
  lemma {:induction false} BaseCopiesTree(env: Env, nsMap: map<string, string>, fuel: nat, e: Element)
    requires NoTransclusion(e)
    ensures BaseElement(env, nsMap, fuel, e) == Ok(Normalized(e, nsMap))
    decreases e, 1
  {
    BaseChildrenCopy(env, nsMap, fuel, e, 0, []);
  }

  lemma {:induction false} BaseChildrenCopy(env: Env, nsMap: map<string, string>, fuel: nat, e: Element, i: nat, acc: seq<Element>)
    requires i <= |e.children|
    requires forall j :: 0 <= j < |e.children| ==> NoTransclusion(e.children[j])
    requires acc == Normalized(e, nsMap).children[..i]
    ensures BaseChildren(env, nsMap, fuel, e, i, acc) == Ok(Normalized(e, nsMap).children)
    decreases e, 0, |e.children| - i
  {
    var kids := Normalized(e, nsMap).children;
    if i < |e.children| {
      BaseCopiesTree(env, nsMap, fuel, e.children[i]);
      assert kids[..i + 1] == acc + [WithTail(Normalized(e.children[i], nsMap), e.children[i])];
      BaseChildrenCopy(env, nsMap, fuel, e, i + 1, kids[..i + 1]);
    } else {
      assert kids[..i] == kids;
    }
  }

  /** `CompilerProcessor(...).process()` on a file without transclusions
      returns a copy of its root. */
  lemma BaseProcessCopiesRoot(env: Env, fuel: nat, project: string, fileName: string)
    requires LoadRoot(env, project, fileName).Ok? && NoTransclusion(LoadRoot(env, project, fileName).value)
    ensures var root := LoadRoot(env, project, fileName).value;
      BaseProcess(env, fuel, project, fileName) == Ok(Normalized(root, NsMapOf(root)))
  {
    var root := LoadRoot(env, project, fileName).value;
    BaseCopiesTree(env, NsMapOf(root), fuel, root);
  }

  /** A transclusion becomes a `p:transclude` element carrying `target`,
      `targetEnd` only when non-empty, and the effective type; a missing
      `target` or type raises; anything else is left to the caller. */
  lemma TranscludeShape(env: Env, nsMap: map<string, string>, fuel: nat, e: Element, typeOverride: Option<string>)
    ensures var r := Transclude(env, nsMap, fuel, e, typeOverride);
      && (r == Ok(None) <==> !IsTransclude(e))
      && (IsTransclude(e) && ("target" !in e.attrs || TranscludeType(e, typeOverride).None?) ==> r == Err(TypeError))
      && (r.Ok? && r.value.Some? ==>
        var t := r.value.value;
        && t.tag == ProcessingTranscludeTag && t.tail.None? && t.nsmap == nsMap
        && t.attrs == TranscludeAttrs(e.attrs["target"], GetOpt(e, "targetEnd"), TranscludeType(e, typeOverride).value))
  {
    var r := Transclude(env, nsMap, fuel, e, typeOverride);
    var target := GetOpt(e, "target");
    var kind := TranscludeType(e, typeOverride);
    if IsTransclude(e) && target.Some? && kind.Some? {
      var shell := ProcessingElement(TranscludeAttrs(target.value, GetOpt(e, "targetEnd"), kind.value), nsMap);
      match StartAndEnd(env.rows, env.priority, target.value, GetOpt(e, "targetEnd"))
      case Err(x) =>
      case Ok(range) =>
        if kind.value == "external" {
          match ExternalProcess(env, range.start.project, range.start.fileName, range.start.urn, range.end.urn)
          case Err(x) =>
          case Ok(wrapper) => assert r == Ok(Some(shell.(children := wrapper.children)));
        } else if fuel > 0 {
          match InlineProcess(env, fuel - 1, range.start.project, range.start.fileName, range.start.urn, range.end.urn)
          case Err(x) =>
          case Ok(inline) => assert r == Ok(Some(shell.(text := inline.text, children := inline.children)));
        }
    }
  }

  /** The guard as written recognises no transclusion element: every
      JLPTEI `transclude` is passed over as an ordinary element. */
  lemma IsTranscludeAsWrittenMisses(e: Element)
    requires IsTransclude(e)
    ensures IsTranscludeAsWritten(e) == Ok(false)
  {
    assert |e.tag| != |"transclude"|;
  }

  // ---------------------------------------------------------------------
  // The inline processor

  /** No element of the tree is the start of the range. */
  predicate NoInlineStart(fromStart: string, e: Element)
    decreases e
  {
    !InlineIsStart(fromStart, e) && forall i :: 0 <= i < |e.children| ==> NoInlineStart(fromStart, e.children[i])
  }

  /** No element of the tree is the end of the range. */
  predicate NoInlineEnd(toEnd: string, e: Element)
    decreases e
  {
    !InlineIsEnd(toEnd, e) && forall i :: 0 <= i < |e.children| ==> NoInlineEnd(toEnd, e.children[i])
  }

  /** The text the inline walk gathers from a subtree inside the range: the
      element's text, then for each child its text and, after a space, its
      tail. */
  function InlineText(e: Element): string
    decreases e, 1
  {
    (if Truthy(e.text) then e.text.value else "") + InlineTextFrom(e, 0)
  }

  function InlineTextFrom(e: Element, i: nat): string
    requires i <= |e.children|
    decreases e, 0, |e.children| - i
  {
    if i == |e.children| then ""
    else
      var c := e.children[i];
      InlineText(c) + (if Truthy(c.tail) then " " + c.tail.value else "") + InlineTextFrom(e, i + 1)
  }

  /** The frame predicate the inline walk keeps: nothing is past the end
      before the start has been seen. */
  predicate InlineFrameOk(c: Context)
  {
    c.afterEnd ==> !c.beforeStart
  }

  /** The inline walk only ever clears `before_start` and sets `after_end`,
      keeps the frame predicate, and clears `before_start` only below an
      element that is the start. */
  lemma {:induction false} InlineFlags(env: Env, nsMap: map<string, string>, fromStart: string, toEnd: string, fuel: nat, ctx: Context, e: Element)
    requires InlineElement(env, nsMap, fromStart, toEnd, fuel, ctx, e).Ok?
    ensures var c := InlineElement(env, nsMap, fromStart, toEnd, fuel, ctx, e).value.0;
      && c.fromStart == ctx.fromStart && c.toEnd == ctx.toEnd && c.insideDca == ctx.insideDca
      && (ctx.afterEnd ==> c.afterEnd)
      && (!ctx.beforeStart ==> !c.beforeStart)
      && (InlineFrameOk(ctx) ==> InlineFrameOk(c))
      && (ctx.beforeStart && NoInlineStart(fromStart, e) ==> c.beforeStart)
    decreases e, 1
  {
    var ctx1 := InlineBefore(fromStart, ctx, e);
    if ctx1.command != Skip {
      var t := Transclude(env, nsMap, fuel, e, Some("inline"));
      if !(t.value.Some? && ElementTruthy(t.value.value)) {
        var text := if ctx1.command == CopyTextAndRecurse && Truthy(e.text) then e.text.value else "";
        InlineChildrenFlags(env, nsMap, fromStart, toEnd, fuel, e, 0, InlineState(ctx1, text, []));
      }
    }
  }

  lemma {:induction false} InlineChildrenFlags(env: Env, nsMap: map<string, string>, fromStart: string, toEnd: string, fuel: nat, e: Element, i: nat, st: InlineState)
    requires i <= |e.children|
    requires InlineChildren(env, nsMap, fromStart, toEnd, fuel, e, i, st).Ok?
    ensures var c := InlineChildren(env, nsMap, fromStart, toEnd, fuel, e, i, st).value.ctx;
      && c.fromStart == st.ctx.fromStart && c.toEnd == st.ctx.toEnd && c.insideDca == st.ctx.insideDca
      && (st.ctx.afterEnd ==> c.afterEnd)
      && (!st.ctx.beforeStart ==> !c.beforeStart)
      && (InlineFrameOk(st.ctx) ==> InlineFrameOk(c))
      && (st.ctx.beforeStart && (forall j :: i <= j < |e.children| ==> NoInlineStart(fromStart, e.children[j])) ==> c.beforeStart)
    decreases e, 0, |e.children| - i
  {
    if i < |e.children| {
      var child := e.children[i];
      InlineFlags(env, nsMap, fromStart, toEnd, fuel, st.ctx, child);
      var res := InlineElement(env, nsMap, fromStart, toEnd, fuel, st.ctx, child).value;
      var st2 := InlineStep(st, res.0, res.1, child).value;
      InlineChildrenFlags(env, nsMap, fromStart, toEnd, fuel, e, i + 1, st2);
    }
  }

  /** Once `after_end` is set, every later element is skipped and adds no
      text and no element. */
  lemma {:induction false} InlineChildrenAfterEnd(env: Env, nsMap: map<string, string>, fromStart: string, toEnd: string, fuel: nat, e: Element, i: nat, st: InlineState)
    requires i <= |e.children| && st.ctx.afterEnd
    ensures var r := InlineChildren(env, nsMap, fromStart, toEnd, fuel, e, i, st);
      r.Ok? && r.value.text == st.text && r.value.kids == st.kids && r.value.ctx.afterEnd
    decreases |e.children| - i
  {
    if i < |e.children| {
      var child := e.children[i];
      var skipped := st.ctx.(command := Skip);
      var st2 := InlineState(skipped, st.text, st.kids);
      assert InlineElement(env, nsMap, fromStart, toEnd, fuel, st.ctx, child) == Ok((skipped, EmptyInline(nsMap)));
      assert InlineStep(st, skipped, EmptyInline(nsMap), child) == Ok(st2) by {
        assert st.text + "" == st.text;
      }
      InlineChildrenUnfold(env, nsMap, fromStart, toEnd, fuel, e, i, st);
      InlineChildrenAfterEnd(env, nsMap, fromStart, toEnd, fuel, e, i + 1, st2);
    }
  }

  /** One turn of the inline children loop. */
  lemma InlineChildrenUnfold(env: Env, nsMap: map<string, string>, fromStart: string, toEnd: string, fuel: nat, e: Element, i: nat, st: InlineState)
    requires i < |e.children|
    requires InlineElement(env, nsMap, fromStart, toEnd, fuel, st.ctx, e.children[i]).Ok?
    requires var res := InlineElement(env, nsMap, fromStart, toEnd, fuel, st.ctx, e.children[i]).value;
      InlineStep(st, res.0, res.1, e.children[i]).Ok?
    ensures var res := InlineElement(env, nsMap, fromStart, toEnd, fuel, st.ctx, e.children[i]).value;
      InlineChildren(env, nsMap, fromStart, toEnd, fuel, e, i, st)
        == InlineChildren(env, nsMap, fromStart, toEnd, fuel, e, i + 1, InlineStep(st, res.0, res.1, e.children[i]).value)
  {
  }

  /** A text carrier's text is gathered, followed by the child's tail when
      the shared frame copies text. */
  lemma InlineStepGathers(st: InlineState, ctx: Context, nsMap: map<string, string>, t: string, child: Element)
    requires st.kids == []
    ensures InlineStep(st, ctx, Element(TranscludeInlineTag, map[], Some(t), None, [], nsMap), child)
      == Ok(InlineState(ctx, st.text + t + (if ctx.command == CopyTextAndRecurse && Truthy(child.tail) then " " + child.tail.value else ""), []))
  {
    if ctx.command == CopyTextAndRecurse && Truthy(child.tail) {
      assert st.text + t + " " + child.tail.value == st.text + t + (" " + child.tail.value);
    } else {
      assert st.text + t + "" == st.text + t;
    }
  }

  /** Before the start, a subtree without the start and without
      transclusions contributes nothing and leaves the start unseen. */
  lemma {:induction false} InlineBeforeStart(env: Env, nsMap: map<string, string>, fromStart: string, toEnd: string, fuel: nat, ctx: Context, e: Element)
    requires ctx.beforeStart && !ctx.afterEnd && NoInlineStart(fromStart, e) && NoTransclusion(e)
    ensures InlineElement(env, nsMap, fromStart, toEnd, fuel, ctx, e) == Ok((ctx.(command := Recurse), EmptyInline(nsMap)))
    decreases e, 1
  {
    InlineChildrenBeforeStart(env, nsMap, fromStart, toEnd, fuel, e, 0, ctx.(command := Recurse));
  }

  lemma {:induction false} InlineChildrenBeforeStart(env: Env, nsMap: map<string, string>, fromStart: string, toEnd: string, fuel: nat, e: Element, i: nat, ctx: Context)
    requires i <= |e.children| && ctx.beforeStart && !ctx.afterEnd && ctx.command == Recurse
    requires forall j :: 0 <= j < |e.children| ==> NoInlineStart(fromStart, e.children[j]) && NoTransclusion(e.children[j])
    ensures InlineChildren(env, nsMap, fromStart, toEnd, fuel, e, i, InlineState(ctx, "", [])) == Ok(InlineState(ctx, "", []))
    decreases e, 0, |e.children| - i
  {
    if i < |e.children| {
      var st := InlineState(ctx, "", []);
      InlineBeforeStart(env, nsMap, fromStart, toEnd, fuel, ctx, e.children[i]);
      assert ctx.(command := Recurse) == ctx;
      InlineStepGathers(st, ctx, nsMap, "", e.children[i]);
      assert "" + "" == "";
      InlineChildrenUnfold(env, nsMap, fromStart, toEnd, fuel, e, i, st);
      InlineChildrenBeforeStart(env, nsMap, fromStart, toEnd, fuel, e, i + 1, ctx);
    }
  }

  /** Inside the range, a subtree without the end and without transclusions
      contributes its whole text. */
  lemma {:induction false} InlineInsideRange(env: Env, nsMap: map<string, string>, fromStart: string, toEnd: string, fuel: nat, ctx: Context, e: Element)
    requires !ctx.beforeStart && !ctx.afterEnd && NoInlineEnd(toEnd, e) && NoTransclusion(e)
    ensures InlineElement(env, nsMap, fromStart, toEnd, fuel, ctx, e)
      == Ok((ctx.(command := CopyTextAndRecurse), Element(TranscludeInlineTag, map[], Some(InlineText(e)), None, [], nsMap)))
    decreases e, 1
  {
    var ctx1 := ctx.(command := CopyTextAndRecurse);
    var text := if Truthy(e.text) then e.text.value else "";
    InlineChildrenInsideRange(env, nsMap, fromStart, toEnd, fuel, e, 0, ctx1, text);
  }

  lemma {:induction false} InlineChildrenInsideRange(env: Env, nsMap: map<string, string>, fromStart: string, toEnd: string, fuel: nat, e: Element, i: nat, ctx: Context, text: string)
    requires i <= |e.children| && !ctx.beforeStart && !ctx.afterEnd && ctx.command == CopyTextAndRecurse
    requires forall j :: 0 <= j < |e.children| ==> NoInlineEnd(toEnd, e.children[j]) && NoTransclusion(e.children[j])
    ensures InlineChildren(env, nsMap, fromStart, toEnd, fuel, e, i, InlineState(ctx, text, []))
      == Ok(InlineState(ctx, text + InlineTextFrom(e, i), []))
    decreases e, 0, |e.children| - i
  {
    if i < |e.children| {
      var c := e.children[i];
      var st := InlineState(ctx, text, []);
      InlineInsideRange(env, nsMap, fromStart, toEnd, fuel, ctx, c);
      assert ctx.(command := CopyTextAndRecurse) == ctx;
      var tp := if Truthy(c.tail) then " " + c.tail.value else "";
      var text2 := text + InlineText(c) + tp;
      InlineStepGathers(st, ctx, nsMap, InlineText(c), c);
      InlineChildrenUnfold(env, nsMap, fromStart, toEnd, fuel, e, i, st);
      InlineChildrenInsideRange(env, nsMap, fromStart, toEnd, fuel, e, i + 1, ctx, text2);
      var rest := InlineTextFrom(e, i + 1);
      assert InlineTextFrom(e, i) == InlineText(c) + tp + rest;
      assert text2 + rest == text + (InlineText(c) + tp + rest);
    } else {
      assert text + "" == text;
    }
  }

  /** The end closes the range once its own text and descendants are
      gathered; when the range has not started, the end must be the start as
      well, and then the start's text alone is the result. */
  lemma InlineEndClosesRange(env: Env, nsMap: map<string, string>, fromStart: string, toEnd: string, fuel: nat, ctx: Context, e: Element)
    requires !ctx.afterEnd && (ctx.beforeStart ==> InlineIsStart(fromStart, e))
    requires InlineIsEnd(toEnd, e) && NoTransclusion(e)
    requires forall j :: 0 <= j < |e.children| ==> NoInlineEnd(toEnd, e.children[j])
    ensures InlineElement(env, nsMap, fromStart, toEnd, fuel, ctx, e)
      == Ok((ctx.(beforeStart := false, afterEnd := true, command := CopyTextAndRecurse),
        Element(TranscludeInlineTag, map[], Some(InlineText(e)), None, [], nsMap)))
  {
    var ctx1 := ctx.(beforeStart := false, command := CopyTextAndRecurse);
    var text := if Truthy(e.text) then e.text.value else "";
    InlineChildrenInsideRange(env, nsMap, fromStart, toEnd, fuel, e, 0, ctx1, text);
  }

  /** The shared command decides a tail. Below the start `p`, the end `d`
      is the last element `c` contains, so the frame still says
      COPY_TEXT_AND_RECURSE when `c`'s tail is reached, and that tail is kept
      though it follows the end. */
  lemma InlineTailKeptAfterLastEnd(env: Env, nsMap: map<string, string>, fuel: nat)
    ensures var d := Element("d", map["corresp" := "e"], Some("x"), None, [], map[]);
      var p := Element("p", map["corresp" := "s"], None, None, [Element("c", map[], None, Some("t"), [d], map[])], map[]);
      var r := InlineElement(env, nsMap, "s", "e", fuel, InlineFrame("s", "e"), p);
      r.Ok? && r.value.1.text == Some("x t")
  {
    var d := Element("d", map["corresp" := "e"], Some("x"), None, [], map[]);
    var c := Element("c", map[], None, Some("t"), [d], map[]);
    var p := Element("p", map["corresp" := "s"], None, None, [c], map[]);
    var inside := Context(Some("s"), Some("e"), false, false, Some(false), CopyTextAndRecurse);
    var closed := inside.(afterEnd := true);
    var cText := ExampleEndIsLast(env, nsMap, fuel, d, c);
    InlineStepGathers(InlineState(inside, "", []), closed, nsMap, "x", c);
    InlineChildrenUnfold(env, nsMap, "s", "e", fuel, p, 0, InlineState(inside, "", []));
    assert "" + "x" + (" " + "t") == "x t";
    assert InlineChildren(env, nsMap, "s", "e", fuel, p, 1, InlineState(closed, "x t", [])) == Ok(InlineState(closed, "x t", []));
    assert !PyStr.StartsWith("e", "#") by { assert "e"[..1] == "e"; }
    assert !InlineIsEnd("e", p);
  }

  /** `c` holding only the end `d`, walked inside the range. */
  lemma ExampleEndIsLast(env: Env, nsMap: map<string, string>, fuel: nat, d: Element, c: Element) returns (cText: Element)
    requires d == Element("d", map["corresp" := "e"], Some("x"), None, [], map[])
    requires c == Element("c", map[], None, Some("t"), [d], map[])
    ensures cText == Element(TranscludeInlineTag, map[], Some("x"), None, [], nsMap)
    ensures var inside := Context(Some("s"), Some("e"), false, false, Some(false), CopyTextAndRecurse);
      InlineElement(env, nsMap, "s", "e", fuel, inside, c) == Ok((inside.(afterEnd := true), cText))
  {
    var inside := Context(Some("s"), Some("e"), false, false, Some(false), CopyTextAndRecurse);
    var closed := inside.(afterEnd := true);
    cText := Element(TranscludeInlineTag, map[], Some("x"), None, [], nsMap);
    assert !PyStr.StartsWith("e", "#") by { assert "e"[..1] == "e"; }
    assert InlineIsEnd("e", d) && !InlineIsEnd("e", c);
    assert NoTransclusion(d);
    InlineEndClosesRange(env, nsMap, "s", "e", fuel, inside, d);
    assert InlineText(d) == "x";
    InlineStepGathers(InlineState(inside, "", []), closed, nsMap, "x", d);
    InlineChildrenUnfold(env, nsMap, "s", "e", fuel, c, 0, InlineState(inside, "", []));
    assert "" + "x" + "" == "x";
    assert InlineChildren(env, nsMap, "s", "e", fuel, c, 1, InlineState(closed, "x", [])) == Ok(InlineState(closed, "x", []));
  }

  /** The same tree with a sibling `d2` after the end inside `c`: `d2` is
      skipped, the frame comes back saying SKIP, and `c`'s tail is dropped. */
  lemma InlineTailDroppedAfterSkip(env: Env, nsMap: map<string, string>, fuel: nat)
    ensures var d := Element("d", map["corresp" := "e"], Some("x"), None, [], map[]);
      var d2 := Element("d2", map[], Some("y"), None, [], map[]);
      var p := Element("p", map["corresp" := "s"], None, None, [Element("c", map[], None, Some("t"), [d, d2], map[])], map[]);
      var r := InlineElement(env, nsMap, "s", "e", fuel, InlineFrame("s", "e"), p);
      r.Ok? && r.value.1.text == Some("x")
  {
    var d := Element("d", map["corresp" := "e"], Some("x"), None, [], map[]);
    var d2 := Element("d2", map[], Some("y"), None, [], map[]);
    var c := Element("c", map[], None, Some("t"), [d, d2], map[]);
    var p := Element("p", map["corresp" := "s"], None, None, [c], map[]);
    var inside := Context(Some("s"), Some("e"), false, false, Some(false), CopyTextAndRecurse);
    var skipped := inside.(afterEnd := true, command := Skip);
    var cText := ExampleEndThenSibling(env, nsMap, fuel, d, d2, c);
    InlineStepGathers(InlineState(inside, "", []), skipped, nsMap, "x", c);
    InlineChildrenUnfold(env, nsMap, "s", "e", fuel, p, 0, InlineState(inside, "", []));
    assert "" + "x" + "" == "x";
    assert InlineChildren(env, nsMap, "s", "e", fuel, p, 1, InlineState(skipped, "x", [])) == Ok(InlineState(skipped, "x", []));
  }

  /** `c` holding the end `d` and then `d2`, walked inside the range. */
  lemma ExampleEndThenSibling(env: Env, nsMap: map<string, string>, fuel: nat, d: Element, d2: Element, c: Element) returns (cText: Element)
    requires d == Element("d", map["corresp" := "e"], Some("x"), None, [], map[])
    requires d2 == Element("d2", map[], Some("y"), None, [], map[])
    requires c == Element("c", map[], None, Some("t"), [d, d2], map[])
    ensures cText == Element(TranscludeInlineTag, map[], Some("x"), None, [], nsMap)
    ensures var inside := Context(Some("s"), Some("e"), false, false, Some(false), CopyTextAndRecurse);
      InlineElement(env, nsMap, "s", "e", fuel, inside, c) == Ok((inside.(afterEnd := true, command := Skip), cText))
  {
    var inside := Context(Some("s"), Some("e"), false, false, Some(false), CopyTextAndRecurse);
    var closed := inside.(afterEnd := true);
    cText := Element(TranscludeInlineTag, map[], Some("x"), None, [], nsMap);
    assert !PyStr.StartsWith("e", "#") by { assert "e"[..1] == "e"; }
    assert InlineIsEnd("e", d);
    assert NoTransclusion(d);
    InlineEndClosesRange(env, nsMap, "s", "e", fuel, inside, d);
    assert InlineText(d) == "x";
    InlineStepGathers(InlineState(inside, "", []), closed, nsMap, "x", d);
    InlineChildrenUnfold(env, nsMap, "s", "e", fuel, c, 0, InlineState(inside, "", []));
    assert "" + "x" + "" == "x";
    InlineChildrenAfterEnd(env, nsMap, "s", "e", fuel, c, 1, InlineState(closed, "x", []));
  }

  // ---------------------------------------------------------------------
  // The external processor

  /** `c` is both the start and the end, found by its `corresp`. */
  function ExampleAnchor(): Element
  {
    Element("c", map["corresp" := "urn:a#1"], Some("t"), None, [], map[])
  }

  /** The start found in the tree is its own deepest common ancestor. */
  lemma ExternalAncestorOfOneElement()
    ensures DeepestCommonAncestor(Element("r", map[], None, None, [ExampleAnchor()], map[]), "urn:a#1", "urn:a#1") == Ok([0])
  {
    var root := Element("r", map[], None, None, [ExampleAnchor()], map[]);
    assert PyStr.StartsWith("urn:a#1", "urn:");
    assert '\'' !in "urn:a#1";
    assert FindBelow(root, "corresp", "urn:a#1", 0) == Some([0]);
  }

  /** With the intended first frame, the walk copies the start element (text
      included), which the walk as written never does. */
  lemma ExternalCopiesStart(nsMap: map<string, string>)
    ensures var root := Element("r", map[], None, None, [ExampleAnchor()], map[]);
      var r := ExternalElement(nsMap, "urn:a#1", "urn:a#1", [0], ExternalFrame("urn:a#1", "urn:a#1"), root, []);
      r.Ok? && r.value.1 == [ExternalCopy(ExampleAnchor(), CopyAndRecurse, [], nsMap)]
  {
    var root := Element("r", map[], None, None, [ExampleAnchor()], map[]);
    ExternalAnchorWalk(nsMap, root, ExternalFrame("urn:a#1", "urn:a#1"));
    var ctx := ExternalFrame("urn:a#1", "urn:a#1").(beforeStart := false, command := CopyAndRecurse);
    assert "urn:a#1"[5] == '#';
    assert ExternalChildren(nsMap, "urn:a#1", "urn:a#1", [0], root, [], 1, ctx,
      [ExternalCopy(ExampleAnchor(), CopyAndRecurse, [], nsMap)]).Ok?;
  }

  /** The anchor element at position `[0]`, walked before the start. */
  lemma ExternalAnchorWalk(nsMap: map<string, string>, root: Element, frame: Context)
    requires root.children != [] && root.children[0] == ExampleAnchor()
    requires frame.beforeStart && !frame.afterEnd && frame.insideDca == Some(false)
    ensures ExternalElement(nsMap, "urn:a#1", "urn:a#1", [0], frame.(command := Recurse), ExampleAnchor(), [] + [0])
      == Ok((frame.(beforeStart := false, command := CopyAndRecurse), [ExternalCopy(ExampleAnchor(), CopyAndRecurse, [], nsMap)]))
    ensures ExternalChildren(nsMap, "urn:a#1", "urn:a#1", [0], root, [], 0, frame.(command := Recurse), [])
      == ExternalChildren(nsMap, "urn:a#1", "urn:a#1", [0], root, [], 1,
        frame.(beforeStart := false, command := CopyAndRecurse), [ExternalCopy(ExampleAnchor(), CopyAndRecurse, [], nsMap)])
  {
    var c := ExampleAnchor();
    assert ExternalBefore("urn:a#1", [0], frame.(command := Recurse), c, [0])
      == Ok(frame.(beforeStart := false, command := CopyAndRecurse));
    assert [] + [0] == [0];
    var out := [ExternalCopy(c, CopyAndRecurse, [], nsMap)];
    assert [] + out == out;
  }

  /** Once the start has been passed and before the end, an element with
      no attributes and no children is copied with its text, whatever the
      URNs, as long as the end URN has a `#`. */
  lemma ExternalPlainChildWalk(nsMap: map<string, string>, fromStart: string, toEnd: string, dca: Position, ctx: Context, d: Element, pos: Position)
    requires d.attrs == map[] && d.children == [] && pos != dca
    requires !ctx.beforeStart && !ctx.afterEnd && '#' in toEnd
    ensures var r := ExternalElement(nsMap, fromStart, toEnd, dca, ctx, d, pos);
      r.Ok? && r.value.1 == [ExternalCopy(d, CopyAndRecurse, [], nsMap)]
  {
    var ctx1 := ctx.(command := CopyAndRecurse);
    assert Get(d, "corresp", "") == "" && Get(d, LiteralXmlIdKey, "") == "";
    assert ExternalBefore(fromStart, dca, ctx, d, pos) == Ok(ctx1);
    assert ExternalChildren(nsMap, fromStart, toEnd, dca, d, pos, 0, ctx1, []) == Ok((ctx1, []));
    assert ExternalAfter(toEnd, dca, ctx1, d, pos).Ok?;
  }

  /** The end is its own deepest common ancestor, and leaving that ancestor
      returns before the end is checked: `after_end` is never set, and a
      sibling after the end is copied too. */
  lemma ExternalEndAtAncestorMissed(nsMap: map<string, string>)
    ensures var d := Element("d", map[], Some("u"), None, [], map[]);
      var root := Element("r", map[], None, None, [ExampleAnchor(), d], map[]);
      var r := ExternalElement(nsMap, "urn:a#1", "urn:a#1", [0], ExternalFrame("urn:a#1", "urn:a#1"), root, []);
      r.Ok? && r.value.1 == [ExternalCopy(ExampleAnchor(), CopyAndRecurse, [], nsMap), ExternalCopy(d, CopyAndRecurse, [], nsMap)]
  {
    var d := Element("d", map[], Some("u"), None, [], map[]);
    var root := Element("r", map[], None, None, [ExampleAnchor(), d], map[]);
    var frame := ExternalFrame("urn:a#1", "urn:a#1");
    ExternalAnchorWalk(nsMap, root, frame);
    var ctx := frame.(beforeStart := false, command := CopyAndRecurse);
    var copyC := ExternalCopy(ExampleAnchor(), CopyAndRecurse, [], nsMap);
    var copyD := ExternalCopy(d, CopyAndRecurse, [], nsMap);
    assert [] + [1] == [1];
    assert "urn:a#1"[5] == '#';
    ExternalPlainChildWalk(nsMap, "urn:a#1", "urn:a#1", [0], ctx, d, [1]);
    var res := ExternalElement(nsMap, "urn:a#1", "urn:a#1", [0], ctx, d, [1]).value;
    assert [copyC] + [copyD] == [copyC, copyD];
    assert ExternalChildren(nsMap, "urn:a#1", "urn:a#1", [0], root, [], 1, ctx, [copyC])
      == ExternalChildren(nsMap, "urn:a#1", "urn:a#1", [0], root, [], 2, res.0, [copyC, copyD]);
  }

  /** `to_end.split('#')[1]` in the after-hook is reached by every element
      after the start that does not carry the end's `corresp`, so a URN
      without `#` raises: here the root, left after its only child, the
      start and end. */
  lemma ExternalUrnWithoutHashRaises(nsMap: map<string, string>)
    ensures var c := Element("c", map["corresp" := "urn:a"], Some("t"), None, [], map[]);
      var root := Element("r", map[], None, None, [c], map[]);
      && DeepestCommonAncestor(root, "urn:a", "urn:a") == Ok([0])
      && ExternalElement(nsMap, "urn:a", "urn:a", [0], ExternalFrame("urn:a", "urn:a"), root, []) == Err(IndexError)
  {
    var c := Element("c", map["corresp" := "urn:a"], Some("t"), None, [], map[]);
    var root := Element("r", map[], None, None, [c], map[]);
    assert PyStr.StartsWith("urn:a", "urn:");
    assert '\'' !in "urn:a";
    assert FindBelow(root, "corresp", "urn:a", 0) == Some([0]);
    var frame := ExternalFrame("urn:a", "urn:a");
    var ctx := frame.(beforeStart := false, command := CopyAndRecurse);
    var copyC := ExternalCopy(c, CopyAndRecurse, [], nsMap);
    assert ExternalElement(nsMap, "urn:a", "urn:a", [0], frame, c, [] + [0]) == Ok((ctx, [copyC])) by {
      assert [] + [0] == [0];
    }
    assert [] + [copyC] == [copyC];
    assert ExternalChildren(nsMap, "urn:a", "urn:a", [0], root, [], 0, frame, []) == Ok((ctx, [copyC]));
    assert '#' !in "urn:a";
  }
}
