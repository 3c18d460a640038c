/** The agent's copies of the page tools: the same naming, reading and
    credit-line rules as module `Pages`, which defines them. */
module AgentTools {
  import opened Wrappers
  import PyStr
  import opened Pages

  /** The `get_page` tool: the page's number and content, or None when the
      text file is missing. */
  function GetPage(textDir: Directory, p: PageNumber): (r: Result<Option<Page>, PyError>)
    ensures r.Err? <==> PageNum(p).Err?
    ensures r.Ok? ==> (r.value.None? <==> PageFileName(PageNum(p).value) !in textDir)
    ensures r.Ok? && r.value.Some? ==> r.value.value.number == PageNum(p).value
  {
    match PageNum(p)
    case Err(x) => Err(x)
    case Ok(n) =>
      var pageFileName := PageFileName(n);
      if pageFileName in textDir then Ok(Some(Page(n, textDir[pageFileName]))) else Ok(None)
  }

  /** The agent's `get_credits`: stripped non-blank lines, or None when the
      credits file is missing. */
  function GetCredits(creditsDir: Directory, p: PageNumber): (r: Result<Option<seq<string>>, PyError>)
    ensures r.Err? <==> PageNum(p).Err?
    ensures r.Ok? ==> (r.value.None? <==> PageFileName(PageNum(p).value) !in creditsDir)
    ensures r.Ok? && r.value.Some? ==>
      forall i :: 0 <= i < |r.value.value| ==> r.value.value[i] != "" && PyStr.Strip(r.value.value[i]) == r.value.value[i]
  {
    match PageNum(p)
    case Err(x) => Err(x)
    case Ok(n) =>
      var pageFileName := PageFileName(n);
      if pageFileName in creditsDir then Ok(Some(CreditLines(creditsDir[pageFileName]))) else Ok(None)
  }

  /** The agent's tools read the same page and credit lines as the importer's. */
  lemma AgreesWithImporter(textDir: Directory, creditsDir: Directory, p: PageNumber)
    ensures GetPage(textDir, p) == Pages.GetPage(textDir, p)
    ensures GetCredits(creditsDir, p) == Pages.GetCredits(creditsDir, p)
  {
  }
}
