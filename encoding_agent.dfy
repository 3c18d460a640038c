/** The text encoding agent: a graph of nodes over one record of state.
    Each node returns a copy of the state with some fields replaced; the
    answers of the language model, the linter and the patcher are given to
    a node as parameters, each either a value or a raised exception. */
module EncodingAgent {
  import opened Wrappers
  import PyStr
  import Pages
  import AgentTools

  /** The values of `next_action`. */
  datatype Action = EncodePage | ValidateXml | FixErrors | CheckCompletion | CheckSectionCompletion | AdvancePage | Done

  function ActionName(a: Action): string
  {
    match a
    case EncodePage => "encode_page"
    case ValidateXml => "validate_xml"
    case FixErrors => "fix_errors"
    case CheckCompletion => "check_completion"
    case CheckSectionCompletion => "check_section_completion"
    case AdvancePage => "advance_page"
    case Done => "done"
  }

  /** A chat message: (role, text). */
  type Message = (string, string)

  /** `TextEncodingAgentState`. The initial state has no `next_action` key,
      hence the option. */
  datatype State = State(
    nameOfSection: string,
    nameOfSourceText: string,
    namespace: string,
    projectId: string,
    startPage: int,
    endPage: int,
    currentPage: int,
    previousPageContent: string,
    currentPageContent: string,
    nextPageContent: string,
    currentEncoding: string,
    messages: seq<Message>,
    finalXml: string,
    encodingErrors: seq<string>,
    isComplete: bool,
    completionExplanation: string,
    errorCount: int,
    maxErrors: int,
    nextAction: Option<Action>,
    sessionId: Option<string>,
    lastCheckpointTime: Option<string>)

  /** What a call to a model or tool did: returned a value, or raised an
      exception with the given `str(e)`. */
  datatype Outcome<T> = Returned(value: T) | Raised(message: string)

  /** `SourceFileOutput`. */
  datatype SourceOutput = SourceOutput(explanation: string, sourceTei: string)

  /** The verdict of `completion_check` or `section_completion_check`. */
  datatype Verdict = Verdict(isComplete: bool, explanation: string)

  /** `diff_fix`'s explanation and the XML `apply_patch` produced from it. */
  datatype PatchResult = PatchResult(explanation: string, fixedTei: string)

  /** The fields a run is started with and that no node replaces. */
  predicate SameInputs(s: State, t: State)
  {
    t.nameOfSection == s.nameOfSection && t.nameOfSourceText == s.nameOfSourceText
    && t.namespace == s.namespace && t.projectId == s.projectId
    && t.startPage == s.startPage && t.endPage == s.endPage && t.maxErrors == s.maxErrors
    && t.isComplete == s.isComplete && t.completionExplanation == s.completionExplanation
    && t.sessionId == s.sessionId && t.lastCheckpointTime == s.lastCheckpointTime
  }

  /** The messages of `t` extend those of `s`. */
  predicate Extends(s: State, t: State)
  {
    |s.messages| <= |t.messages| && t.messages[..|s.messages|] == s.messages
  }

  /** `page.content if page else ""` for `get_page.invoke({"page_number": n})`. */
  function PageContent(textDir: Pages.Directory, n: int): (r: string)
    ensures Pages.PageFileName(n) in textDir ==> r == textDir[Pages.PageFileName(n)]
    ensures Pages.PageFileName(n) !in textDir ==> r == ""
  {
    match AgentTools.GetPage(textDir, Pages.IntNumber(n))
    case Ok(Some(page)) => page.content
    case _ => ""
  }

  // ---------------------------------------------------------------------
  // Nodes

  /** `encode_page`: the model's TEI becomes the current encoding and its
      explanation is logged; on an exception the errors are replaced by
      one message and nothing else changes. */
  function EncodePageNode(s: State, answer: Outcome<SourceOutput>): (r: State)
    ensures Extends(s, r)
    ensures answer.Returned? ==>
      (r == s.(currentEncoding := answer.value.sourceTei, messages := r.messages)
       && |r.messages| == |s.messages| + 1 && r.messages[|s.messages|].0 == "assistant")
    ensures answer.Raised? ==> r == s.(encodingErrors := r.encodingErrors) && |r.encodingErrors| == 1
  {
    var page := PyStr.IntToString(s.currentPage);
    match answer
    case Returned(out) =>
      s.(currentEncoding := out.sourceTei,
         messages := s.messages + [("assistant", "Encoded page " + page + ": " + out.explanation)])
    case Raised(e) =>
      s.(encodingErrors := ["Error encoding page " + page + ": " + e])
  }

  /** `check_completion`: a complete page moves on to the section check;
      an incomplete page or a failed check logs why and encodes the page
      again. */
  function CheckCompletionNode(s: State, answer: Outcome<Verdict>): (r: State)
    ensures Extends(s, r)
    ensures r == s.(messages := r.messages, nextAction := r.nextAction)
    ensures r.nextAction == Some(CheckSectionCompletion) <==> answer.Returned? && answer.value.isComplete
    ensures r.nextAction != Some(CheckSectionCompletion) ==> r.nextAction == Some(EncodePage) && |r.messages| == |s.messages| + 1
    ensures r.nextAction == Some(CheckSectionCompletion) ==> r.messages == s.messages
  {
    match answer
    case Returned(v) =>
      if v.isComplete then s.(nextAction := Some(CheckSectionCompletion))
      else s.(messages := s.messages + [("assistant", "Completion check failed: " + v.explanation)],
              nextAction := Some(EncodePage))
    case Raised(e) =>
      s.(messages := s.messages + [("system", "Completion check error: " + e)],
         nextAction := Some(EncodePage))
  }

  /** `check_section_completion`: at or past the end page the section goes
      to validation as it is; before it, the current encoding is appended
      to the final XML, and the section check decides between validating
      (complete) and the next page (incomplete or failed). */
  function CheckSectionCompletionNode(s: State, answer: Outcome<Verdict>): (r: State)
    ensures Extends(s, r)
    ensures r == s.(finalXml := r.finalXml, messages := r.messages, nextAction := r.nextAction)
    ensures s.currentPage >= s.endPage ==> r == s.(nextAction := Some(ValidateXml))
    ensures s.currentPage < s.endPage ==>
      r.finalXml == s.finalXml + s.currentEncoding && |r.messages| == |s.messages| + 1
      && (r.nextAction == Some(ValidateXml) <==> answer.Returned? && answer.value.isComplete)
      && (r.nextAction != Some(ValidateXml) ==> r.nextAction == Some(AdvancePage))
  {
    if s.currentPage >= s.endPage then s.(nextAction := Some(ValidateXml))
    else
      var appended := s.finalXml + s.currentEncoding;
      match answer
      case Returned(v) =>
        if v.isComplete then
          s.(finalXml := appended,
             messages := s.messages + [("assistant", "Section completion check: " + v.explanation)],
             nextAction := Some(ValidateXml))
        else
          s.(finalXml := appended,
             messages := s.messages + [("assistant", "Section not complete: " + v.explanation)],
             nextAction := Some(AdvancePage))
      case Raised(e) =>
        s.(finalXml := appended,
           messages := s.messages + [("system", "Section completion check error: " + e)],
           nextAction := Some(AdvancePage))
  }

  /** `advance_page`: with no current page content the current page is
      (re)loaded and there is no previous page; otherwise the window slides
      one page on. Either way the next page is read afresh. */
  function AdvancePageNode(s: State, textDir: Pages.Directory): (r: State)
    ensures Extends(s, r)
    ensures r == s.(currentPage := r.currentPage, previousPageContent := r.previousPageContent,
                    currentPageContent := r.currentPageContent, nextPageContent := r.nextPageContent,
                    nextAction := Some(EncodePage))
    ensures s.currentPageContent == "" ==>
      r.currentPage == s.currentPage && r.previousPageContent == ""
      && r.currentPageContent == PageContent(textDir, s.currentPage)
    ensures s.currentPageContent != "" ==>
      r.currentPage == s.currentPage + 1 && r.previousPageContent == s.currentPageContent
      && r.currentPageContent == s.nextPageContent
    ensures r.nextPageContent == PageContent(textDir, r.currentPage + 1)
  {
    var next := PageContent(textDir, (if s.currentPageContent == "" then s.currentPage else s.currentPage + 1) + 1);
    if s.currentPageContent == "" then
      s.(previousPageContent := "", currentPageContent := PageContent(textDir, s.currentPage),
         nextPageContent := next, nextAction := Some(EncodePage))
    else
      s.(currentPage := s.currentPage + 1, previousPageContent := s.currentPageContent,
         currentPageContent := s.nextPageContent, nextPageContent := next, nextAction := Some(EncodePage))
  }

  /** `validate_xml`: the linter's errors replace the encoding errors, and
      the error count rises by one exactly when there are some; a linter
      exception becomes the only error and leaves the count alone. */
  function ValidateXmlNode(s: State, answer: Outcome<seq<string>>): (r: State)
    ensures r.messages == s.messages
    ensures r == s.(encodingErrors := r.encodingErrors, errorCount := r.errorCount)
    ensures r.errorCount == (if answer.Returned? && answer.value != [] then s.errorCount + 1 else s.errorCount)
    ensures answer.Returned? ==> r.encodingErrors == answer.value
    ensures answer.Raised? ==> |r.encodingErrors| == 1
  {
    match answer
    case Returned(errors) =>
      if errors != [] then s.(encodingErrors := errors, errorCount := s.errorCount + 1)
      else s.(encodingErrors := [])
    case Raised(e) =>
      s.(encodingErrors := ["XML validation error: " + e])
  }

  /** The message `fix_errors` adds when the attempts are used up. */
  function LimitMessage(maxErrors: int): string
  {
    "Maximum error correction attempts (" + PyStr.IntToString(maxErrors) + ") exceeded"
  }

  /** `fix_errors`: with the attempts used up it stops with a message and
      leaves the XML alone; otherwise a successful patch replaces the final
      XML and clears the errors, and a failed one adds its error. */
  function FixErrorsNode(s: State, answer: Outcome<PatchResult>): (r: State)
    ensures Extends(s, r)
    ensures r.errorCount == s.errorCount
    ensures s.errorCount >= s.maxErrors ==>
      r == s.(nextAction := Some(Done), encodingErrors := s.encodingErrors + [LimitMessage(s.maxErrors)])
    ensures s.errorCount < s.maxErrors && answer.Returned? ==>
      r == s.(finalXml := answer.value.fixedTei, encodingErrors := [], messages := r.messages)
      && |r.messages| == |s.messages| + 1
    ensures s.errorCount < s.maxErrors && answer.Raised? ==>
      r == s.(encodingErrors := r.encodingErrors) && |r.encodingErrors| == |s.encodingErrors| + 1
      && r.encodingErrors[..|s.encodingErrors|] == s.encodingErrors
  {
    if s.errorCount >= s.maxErrors then
      s.(nextAction := Some(Done), encodingErrors := s.encodingErrors + [LimitMessage(s.maxErrors)])
    else
      match answer
      case Returned(p) =>
        s.(finalXml := p.fixedTei, encodingErrors := [],
           messages := s.messages + [("assistant", "Applied error fixes: " + p.explanation)])
      case Raised(e) =>
        var errors := s.encodingErrors + ["Error fixing failed: " + e];
        assert errors[..|s.encodingErrors|] == s.encodingErrors;
        s.(encodingErrors := errors)
  }

  // ---------------------------------------------------------------------
  // Routers

  /** LangGraph's `END`. */
  const EndName: string := "__end__"

  /** `route_next_action`: the recorded next action, or "encode_page" when
      there is none. */
  function RouteNextAction(s: State): (r: string)
    ensures s.nextAction.Some? ==> r == ActionName(s.nextAction.value)
    ensures s.nextAction.None? ==> r == "encode_page"
  {
    if s.nextAction.Some? then ActionName(s.nextAction.value) else "encode_page"
  }

  /** `should_fix_errors`: fix while there are errors and attempts left. */
  function ShouldFixErrors(s: State): (r: string)
    ensures r == "fix_errors" <==> s.encodingErrors != [] && s.errorCount < s.maxErrors
    ensures r != "fix_errors" ==> r == EndName
  {
    if s.encodingErrors != [] && s.errorCount < s.maxErrors then "fix_errors" else EndName
  }

  // ---------------------------------------------------------------------
  // The graph

  datatype Node = EncodePageStep | CheckCompletionStep | CheckSectionCompletionStep | AdvancePageStep | ValidateXmlStep | FixErrorsStep

  /** Where an edge leads: a node or `END`. */
  datatype Target = To(node: Node) | End

  datatype Router = ByNextAction | ByErrors

  /** `add_edge` and `add_conditional_edges` with a path map. */
  datatype Edge = Always(to: Node) | Conditional(router: Router, paths: map<string, Target>)

  /** The edges `create_text_encoding_agent` adds. */
  function EdgeOf(node: Node): Edge
  {
    match node
    case EncodePageStep => Always(CheckCompletionStep)
    case CheckCompletionStep => Conditional(ByNextAction, map[
      "encode_page" := To(EncodePageStep),
      "check_section_completion" := To(CheckSectionCompletionStep)])
    case CheckSectionCompletionStep => Conditional(ByNextAction, map[
      "advance_page" := To(AdvancePageStep),
      "validate_xml" := To(ValidateXmlStep)])
    case AdvancePageStep => Always(EncodePageStep)
    case ValidateXmlStep => Conditional(ByErrors, map[
      "fix_errors" := To(FixErrorsStep),
      EndName := End])
    case FixErrorsStep => Always(ValidateXmlStep)
  }

  /** `set_entry_point`. */
  const Entry: Node := AdvancePageStep

  function Route(router: Router, s: State): string
  {
    match router
    case ByNextAction => RouteNextAction(s)
    case ByErrors => ShouldFixErrors(s)
  }

  /** The target after `node` has produced `s`; a router's value missing
      from the path map is an error of the graph. */
  function Successor(node: Node, s: State): (r: Result<Target, string>)
    ensures EdgeOf(node).Always? ==> r == Ok(To(EdgeOf(node).to))
    ensures EdgeOf(node).Conditional? ==>
      (r.Ok? <==> Route(EdgeOf(node).router, s) in EdgeOf(node).paths)
      && (r.Ok? ==> r.value == EdgeOf(node).paths[Route(EdgeOf(node).router, s)])
  {
    match EdgeOf(node)
    case Always(to) => Ok(To(to))
    case Conditional(router, paths) =>
      var key := Route(router, s);
      if key in paths then Ok(paths[key]) else Err("unknown route: " + key)
  }

  /** The answers the outside world gives one step. */
  datatype Answers = Answers(
    encoding: Outcome<SourceOutput>,
    completion: Outcome<Verdict>,
    sectionCompletion: Outcome<Verdict>,
    linter: Outcome<seq<string>>,
    patch: Outcome<PatchResult>,
    textDir: Pages.Directory)

  /** Running one node. */
  function RunNode(node: Node, s: State, a: Answers): State
  {
    match node
    case EncodePageStep => EncodePageNode(s, a.encoding)
    case CheckCompletionStep => CheckCompletionNode(s, a.completion)
    case CheckSectionCompletionStep => CheckSectionCompletionNode(s, a.sectionCompletion)
    case AdvancePageStep => AdvancePageNode(s, a.textDir)
    case ValidateXmlStep => ValidateXmlNode(s, a.linter)
    case FixErrorsStep => FixErrorsNode(s, a.patch)
  }

  /** One step of the graph: run the node, then follow its edge. */
  function Step(node: Node, s: State, a: Answers): Result<(State, Target), string>
  {
    var t := RunNode(node, s, a);
    match Successor(node, t)
    case Ok(target) => Ok((t, target))
    case Err(e) => Err(e)
  }

  /** `run_text_encoding_agent`'s initial state. */
  function InitialState(nameOfSection: string, nameOfSourceText: string, namespace: string, projectId: string,
                        startPage: int, endPage: int, maxErrors: int, sessionId: string): (s: State)
    ensures s.currentPage == startPage && s.currentPageContent == "" && s.nextAction.None?
    ensures s.finalXml == "" && s.encodingErrors == [] && s.errorCount == 0 && |s.messages| == 1
  {
    State(nameOfSection, nameOfSourceText, namespace, projectId, startPage, endPage,
          startPage, "", "", "", "",
          [("system", "Encoding section '" + nameOfSection + "' from '" + nameOfSourceText
             + "' (pages " + PyStr.IntToString(startPage) + "-" + PyStr.IntToString(endPage) + ")")],
          "", [], false, "", 0, maxErrors, None, Some(sessionId), None)
  }

  // ---------------------------------------------------------------------
  // Properties of the graph

  /** No node replaces the run's inputs, and the messages only grow. */
  lemma NodesKeepInputs(node: Node, s: State, a: Answers)
    ensures SameInputs(s, RunNode(node, s, a)) && Extends(s, RunNode(node, s, a))
  {
    var t := RunNode(node, s, a);
    match node
    case EncodePageStep => assert t == EncodePageNode(s, a.encoding);
    case CheckCompletionStep => assert t == CheckCompletionNode(s, a.completion);
    case CheckSectionCompletionStep => assert t == CheckSectionCompletionNode(s, a.sectionCompletion);
    case AdvancePageStep => assert t == AdvancePageNode(s, a.textDir);
    case ValidateXmlStep =>
      assert t == ValidateXmlNode(s, a.linter);
      assert t.messages == s.messages;
    case FixErrorsStep => assert t == FixErrorsNode(s, a.patch);
  }

  /** The unconditional edges, and the entry point. */
  lemma FixedEdges(s: State)
    ensures Entry == AdvancePageStep
    ensures Successor(EncodePageStep, s) == Ok(To(CheckCompletionStep))
    ensures Successor(AdvancePageStep, s) == Ok(To(EncodePageStep))
    ensures Successor(FixErrorsStep, s) == Ok(To(ValidateXmlStep))
  {
  }

  /** The routed nodes always produce a value their path map knows, so a
      step never fails. */
  lemma StepsNeverFail(node: Node, s: State, a: Answers)
    ensures Step(node, s, a).Ok?
  {
    match node
    case CheckCompletionStep => CompletionRoute(s, a);
    case CheckSectionCompletionStep => SectionRoute(s, a);
    case ValidateXmlStep => ValidationRoute(s, a);
    case _ =>
  }

  /** The page check goes where its `next_action` says. */
  lemma CompletionRoute(s: State, a: Answers)
    ensures Step(CheckCompletionStep, s, a).Ok?
    ensures var t := CheckCompletionNode(s, a.completion);
      Step(CheckCompletionStep, s, a) == Ok((t, To(if t.nextAction == Some(EncodePage) then EncodePageStep else CheckSectionCompletionStep)))
  {
    var t := CheckCompletionNode(s, a.completion);
    assert t.nextAction == Some(EncodePage) || t.nextAction == Some(CheckSectionCompletion);
  }

  /** The section check goes where its `next_action` says. */
  lemma SectionRoute(s: State, a: Answers)
    ensures Step(CheckSectionCompletionStep, s, a).Ok?
    ensures var t := CheckSectionCompletionNode(s, a.sectionCompletion);
      Step(CheckSectionCompletionStep, s, a) == Ok((t, To(if t.nextAction == Some(AdvancePage) then AdvancePageStep else ValidateXmlStep)))
  {
    var t := CheckSectionCompletionNode(s, a.sectionCompletion);
    assert t.nextAction == Some(AdvancePage) || t.nextAction == Some(ValidateXml);
  }

  /** Validation goes on to fixing exactly when `should_fix_errors` says
      so, and ends the run otherwise. */
  lemma ValidationRoute(s: State, a: Answers)
    ensures Step(ValidateXmlStep, s, a).Ok?
    ensures var t := ValidateXmlNode(s, a.linter);
      Step(ValidateXmlStep, s, a) == Ok((t, if t.encodingErrors != [] && t.errorCount < t.maxErrors then To(FixErrorsStep) else End))
  {
  }

  /** In the graph `fix_errors` is only reached with attempts left, so its
      limit branch is never taken there: the step from validation to
      fixing guarantees `error_count < max_errors`. */
  lemma FixingHasAttemptsLeft(s: State, a: Answers)
    requires Step(ValidateXmlStep, s, a).Ok? && Step(ValidateXmlStep, s, a).value.1 == To(FixErrorsStep)
    ensures var t := Step(ValidateXmlStep, s, a).value.0;
      t.errorCount < t.maxErrors && FixErrorsNode(t, a.patch).nextAction == t.nextAction
  {
  }

  /** A validation round whose linter answers (with errors, since it goes
      on to fixing) uses up one attempt: `max_errors - error_count` falls
      by one and stays non-negative, so a linter that keeps answering ends
      the validate-and-fix loop. */
  lemma ValidationRoundUsesAttempt(s: State, a: Answers)
    requires a.linter.Returned?
    requires Step(ValidateXmlStep, s, a).Ok? && Step(ValidateXmlStep, s, a).value.1 == To(FixErrorsStep)
    ensures var t := Step(ValidateXmlStep, s, a).value.0;
      var u := FixErrorsNode(t, a.patch);
      u.errorCount == s.errorCount + 1 && 0 <= u.maxErrors - u.errorCount < s.maxErrors - s.errorCount
  {
  }

  /** A linter that raises uses up no attempt: the round comes back to
      validation with the same error count. */
  lemma LinterFailureKeepsCount(s: State, a: Answers)
    requires a.linter.Raised? && s.errorCount < s.maxErrors
    ensures Step(ValidateXmlStep, s, a) == Ok((ValidateXmlNode(s, a.linter), To(FixErrorsStep)))
    ensures var u := FixErrorsNode(ValidateXmlNode(s, a.linter), a.patch);
      u.errorCount == s.errorCount && Successor(FixErrorsStep, u) == Ok(To(ValidateXmlStep))
  {
  }

  /** The first step loads the start page: the run begins at
      `advance_page` with no page content, so the page number stays at the
      start page. */
  lemma FirstStepLoadsStartPage(s: State, a: Answers)
    requires s.sessionId.Some?
    requires s == InitialState(s.nameOfSection, s.nameOfSourceText, s.namespace, s.projectId,
                               s.startPage, s.endPage, s.maxErrors, s.sessionId.value)
    ensures var t := RunNode(Entry, s, a);
      t.currentPage == s.startPage && t.currentPageContent == PageContent(a.textDir, s.startPage)
      && t.nextPageContent == PageContent(a.textDir, s.startPage + 1) && t.previousPageContent == ""
  {
  }

  /** A page whose file is missing or empty stops the window from moving:
      once it is the current page, every later `advance_page` reloads it
      and the page number never rises. */
  lemma EmptyPageStalls(s: State, textDir: Pages.Directory)
    requires s.currentPageContent == "" && PageContent(textDir, s.currentPage) == ""
    ensures var t := AdvancePageNode(s, textDir);
      t.currentPage == s.currentPage && t.currentPageContent == ""
  {
  }

  /** Pages are encoded in order: every step either keeps the current page
      or moves it on by exactly one, and only `advance_page` moves it. */
  lemma PageMovesByOne(node: Node, s: State, a: Answers)
    ensures var t := RunNode(node, s, a);
      t.currentPage == s.currentPage || (node == AdvancePageStep && t.currentPage == s.currentPage + 1)
  {
  }

  /** Only the section check and `fix_errors` touch the final XML; the
      section check only ever appends to it. */
  lemma FinalXmlWriters(node: Node, s: State, a: Answers)
    ensures var t := RunNode(node, s, a);
      (node != CheckSectionCompletionStep && node != FixErrorsStep ==> t.finalXml == s.finalXml)
      && (node == CheckSectionCompletionStep ==> PyStr.StartsWith(t.finalXml, s.finalXml))
  {
    var t := RunNode(node, s, a);
    if node == CheckSectionCompletionStep {
      assert (s.finalXml + s.currentEncoding)[..|s.finalXml|] == s.finalXml;
    }
  }
}
