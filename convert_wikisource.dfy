/** The JPS 1917 Wikisource converter's own logic: the transcription credits
    of a page range, the TEI header and file templates, the selection of the
    stylesheet's outputs, and the transclusion list of an index file. The
    stylesheet, the MediaWiki processing of the pages and the file writes
    are outside the model; their results are parameters. */
module ConvertWikisource {
  import opened Wrappers
  import PyStr
  import Pages
  import AgentTools
  import Ordering
  import Seqs
  import Urn

  // ---------------------------------------------------------------------
  // Credits of a page range

  /** The credit lines of each page, or None when it has no credits file. */
  function CreditsOf(creditsDir: Pages.Directory): int -> Option<seq<string>>
  {
    p => var r := AgentTools.GetCredits(creditsDir, Pages.IntNumber(p)); if r.Ok? then r.value else None
  }

  /** The credits named on the pages `start..end`, both included. */
  function Union(credits: int -> Option<seq<string>>, start: int, end: int): set<string>
    decreases end - start
  {
    if end < start then {} else Union(credits, start, end - 1) + NamedOn(credits, end)
  }

  /** The credits named on one page. */
  function NamedOn(credits: int -> Option<seq<string>>, p: int): set<string>
  {
    if credits(p).Some? then (set c | c in credits(p).value) else {}
  }

  /** The pages from `start` to `end`, in order. */
  function PageRange(start: int, end: int): (r: seq<int>)
    ensures |r| == if end < start then 0 else end - start + 1
    ensures forall k :: 0 <= k < |r| ==> r[k] == start + k
    decreases end - start
  {
    if end < start then [] else PageRange(start, end - 1) + [end]
  }

  /** The strictly ascending list of the credits named on the pages. */
  ghost predicate IsCreditList(creditsDir: Pages.Directory, startPage: int, endPage: int, credits: seq<string>)
  {
    Ordering.StrictlySorted(credits)
    && forall c :: c in credits <==> c in Union(CreditsOf(creditsDir), startPage, endPage)
  }

  /** `get_credits_pages`: the distinct credits of the pages, ascending;
      `queried` lists the pages whose credits were read, each once, in order. */
  method GetCreditsPages(creditsDir: Pages.Directory, startPage: int, endPage: int)
    returns (r: seq<string>, ghost queried: seq<int>)
    ensures IsCreditList(creditsDir, startPage, endPage, r)
    ensures queried == PageRange(startPage, endPage)
  {
    var credits;
    credits, queried := CollectCredits(creditsDir, startPage, endPage);
    r := Ordering.SortedSet(credits);
  }

  /** The loop of `get_credits_pages`: the set of the credits of the pages,
      read one page after the other. */
  method CollectCredits(creditsDir: Pages.Directory, startPage: int, endPage: int)
    returns (credits: set<string>, ghost queried: seq<int>)
    ensures credits == Union(CreditsOf(creditsDir), startPage, endPage)
    ensures queried == PageRange(startPage, endPage)
  {
    credits := {};
    queried := [];
    var page := startPage;
    while page <= endPage
      invariant startPage <= page && (page == startPage || page <= endPage + 1)
      invariant credits == Union(CreditsOf(creditsDir), startPage, page - 1)
      invariant queried == PageRange(startPage, page - 1)
      decreases endPage - page
    {
      var named := ReadPageCredits(creditsDir, page);
      queried := queried + [page];
      UnionNext(CreditsOf(creditsDir), startPage, page);
      credits := credits + named;
      page := page + 1;
    }
  }

  /** One page of the loop: its credits file's lines, as a set. */
  method ReadPageCredits(creditsDir: Pages.Directory, page: int) returns (named: set<string>)
    ensures named == NamedOn(CreditsOf(creditsDir), page)
  {
    var pageCredits := AgentTools.GetCredits(creditsDir, Pages.IntNumber(page));
    CreditsOfPage(creditsDir, page);
    named := if pageCredits.value.Some? then (set c | c in pageCredits.value.value) else {};
  }

  lemma CreditsOfPage(creditsDir: Pages.Directory, page: int)
    ensures var r := AgentTools.GetCredits(creditsDir, Pages.IntNumber(page));
      r.Ok? && r.value == CreditsOf(creditsDir)(page)
  {
  }

  lemma UnionNext(credits: int -> Option<seq<string>>, start: int, page: int)
    requires start <= page
    ensures Union(credits, start, page) == Union(credits, start, page - 1) + NamedOn(credits, page)
    ensures PageRange(start, page) == PageRange(start, page - 1) + [page]
  {
  }

  /** A credit is in the union exactly when some page of the range names it. */
  lemma {:induction false} UnionMeans(credits: int -> Option<seq<string>>, start: int, end: int, c: string)
    ensures c in Union(credits, start, end) <==>
      exists p :: start <= p <= end && credits(p).Some? && c in credits(p).value
    decreases end - start
  {
    if end >= start {
      UnionMeans(credits, start, end - 1, c);
      if exists p :: start <= p <= end && credits(p).Some? && c in credits(p).value {
        var p :| start <= p <= end && credits(p).Some? && c in credits(p).value;
        if p < end {
          assert start <= p <= end - 1;
        }
      }
    }
  }

  /** The credits of a range are those of its two halves together. */
  lemma {:induction false} UnionSplit(credits: int -> Option<seq<string>>, start: int, mid: int, end: int)
    requires start - 1 <= mid <= end
    ensures Union(credits, start, end) == Union(credits, start, mid) + Union(credits, mid + 1, end)
    decreases end - mid
  {
    if mid < end {
      UnionSplit(credits, start, mid, end - 1);
    }
  }

  /** An empty range has no credits. */
  lemma EmptyRangeNoCredits(credits: int -> Option<seq<string>>, start: int, end: int)
    requires end < start
    ensures Union(credits, start, end) == {}
  {
  }

  /** Every credit returned is a stripped, non-blank line of a credits file. */
  lemma {:induction false} CreditsAreClean(creditsDir: Pages.Directory, start: int, end: int, c: string)
    requires c in Union(CreditsOf(creditsDir), start, end)
    ensures c != "" && PyStr.Strip(c) == c
    decreases end - start
  {
    var credits := CreditsOf(creditsDir);
    if c in Union(credits, start, end - 1) {
      CreditsAreClean(creditsDir, start, end - 1, c);
    } else {
      var lines := credits(end).value;
      var k :| 0 <= k < |lines| && lines[k] == c;
      assert AgentTools.GetCredits(creditsDir, Pages.IntNumber(end)).value.value[k] == c;
    }
  }

  // ---------------------------------------------------------------------
  // The TEI header

  /** The contributor that gets no transcription credit. */
  const Bot := "Wikisource-bot"

  /** The arguments of `header`. */
  datatype HeaderArgs = HeaderArgs(
    bookNameHe: Option<string>, bookNameEn: string, bookSubHe: Option<string>, bookSubEn: Option<string>,
    namespace: string, entrypoint: string, qualifier: string, projectId: string,
    licenseUrl: string, licenseName: string, transcriptionCredits: Option<seq<string>>)

  /** `header(...)` given the titles and the credits, every other argument
      taking its default. */
  function HeaderWithDefaults(bookNameHe: Option<string>, bookNameEn: string, bookSubHe: Option<string>,
                              bookSubEn: Option<string>, credits: Option<seq<string>>): HeaderArgs
  {
    HeaderArgs(bookNameHe, bookNameEn, bookSubHe, bookSubEn, DefaultNamespace, DefaultEntrypoint, "",
               DefaultProjectId, DefaultLicenseUrl, DefaultLicenseName, credits)
  }

  const DefaultNamespace := "bible"
  const DefaultEntrypoint := "tanakh"
  const DefaultProjectId := "jps1917"
  const DefaultLicenseUrl := "http://www.creativecommons.org/publicdomain/zero/1.0/"
  const DefaultLicenseName := "Creative Commons Public Domain Dedication 1.0"

  /** How an f-string renders an optional string: None becomes "None". */
  function Render(s: Option<string>): string
  {
    if s.Some? then s.value else "None"
  }

  /** The alternative subtitle element, only for a given, non-empty subtitle. */
  function AltSub(lang: string, sub: Option<string>): string
  {
    if Truthy(sub) then AltSubOpening + lang + "\">" + sub.value + "</tei:title>" else ""
  }

  /** The subtitle element is there exactly when the subtitle is given and
      not empty, and then it holds the subtitle. */
  lemma AltSubMeans(lang: string, sub: Option<string>)
    ensures AltSub(lang, sub) == "" <==> !Truthy(sub)
    ensures Truthy(sub) ==> PyStr.Contains(AltSub(lang, sub), sub.value)
  {
    if Truthy(sub) {
      PyStr.ContainsInfix(AltSubOpening + lang + "\">", sub.value, "</tei:title>");
    }
  }

  const AltSubOpening := "<tei:title type=\"alt-sub\" xml:lang=\""

  /** The credits that get a `respStmt`: all but the bot, in order. */
  function Transcribers(credits: seq<string>): seq<string>
  {
    Seqs.Filter(credits, c => c != Bot)
  }

  /** One transcriber's `respStmt`; `quote` is `urllib.parse.quote`. */
  function RespStmt(quote: string -> string, name: string): string
  {
    RespStmtOpening + quote(name) + "\">" + name + RespStmtClosing
  }

  const RespStmtOpening :=
    "<tei:respStmt>\n"
    + "            <tei:resp key=\"trc\">Transcribed by</tei:resp>\n"
    + "            <tei:name ref=\"urn:x-opensiddur:contributor:en.wikisource.org/"

  const RespStmtClosing :=
    " (English Wikisource contributor)</tei:name>\n"
    + "        </tei:respStmt>"

  /** The `respStmt` elements, one per transcriber, in order. */
  function RespStmtList(quote: string -> string, credits: seq<string>): (r: seq<string>)
  {
    var t := Transcribers(credits);
    seq(|t|, k requires 0 <= k < |t| => RespStmt(quote, t[k]))
  }

  /** The project URN the header declares. */
  function Idno(namespace: string, entrypoint: string, qualifier: string, projectId: string): string
  {
    TextUrnPrefix + namespace + ":" + entrypoint + qualifier + "@" + projectId
  }

  const TextUrnPrefix := "urn:x-opensiddur:text:"

  /** The title statement down to the transcribers' `respStmt` elements. */
  function TitleLines(a: HeaderArgs): string
  {
    TitleStmtOpening + a.bookNameEn + TitleClosing + AltSub("en", a.bookSubEn)
    + HebrewTitleOpening + Render(a.bookNameHe) + TitleClosing + AltSub("he", a.bookSubHe) + "\n            "
  }

  const TitleStmtOpening :=
    "<tei:teiHeader>\n"
    + "    <tei:fileDesc>\n"
    + "        <tei:titleStmt>\n"
    + "            <tei:title type=\"main\" xml:lang=\"en\">"

  const TitleClosing := "</tei:title>\n            "

  const HebrewTitleOpening := "\n            <tei:title type=\"alt\" xml:lang=\"he\">"

  /** From the end of the title statement to the URN `idno` element. */
  const PublicationOpening :=
    "\n"
    + "         </tei:titleStmt>\n"
    + "         <tei:publicationStmt>\n"
    + "            <tei:distributor>\n"
    + "               <tei:ref target=\"http://opensiddur.org\">Open Siddur Project</tei:ref>\n"
    + "            </tei:distributor>\n"
    + "            "

  /** The credits of the header: `transcription_credits or []`. */
  function CreditsArg(a: HeaderArgs): seq<string>
  {
    if a.transcriptionCredits.Some? then a.transcriptionCredits.value else []
  }

  /** The transcribers' `respStmt` elements, one per line. */
  function RespStmts(quote: string -> string, a: HeaderArgs): string
  {
    PyStr.Join(RespStmtList(quote, CreditsArg(a)), "\n")
  }

  /** The URN `idno` element. */
  function IdnoElement(a: HeaderArgs): string
  {
    IdnoOpening + Idno(a.namespace, a.entrypoint, a.qualifier, a.projectId) + IdnoClosing
  }

  const IdnoOpening := "<tei:idno type=\"urn\">"
  const IdnoClosing := "</tei:idno>"

  /** The fixed description of the source edition. */
  function SourceDescription(): string
  {
    "            </tei:availability>\n"
    + "         </tei:publicationStmt>\n"
    + "         <tei:sourceDesc>\n"
    + "            <tei:bibl>\n"
    + "                <tei:title>Bible (Jewish Publication Society 1917)</tei:title>\n"
    + "                <tei:distributor><tei:ref target=\"https://en.wikisource.org\">Wikisource</tei:ref></tei:distributor>\n"
    + "                <tei:idno type=\"url\">https://en.wikisource.org/wiki/Bible_(Jewish_Publication_Society_1917)</tei:idno>\n"
    + "                <tei:date>2025-07-27</tei:date>\n"
    + "            </tei:bibl>\n"
    + "            <tei:bibl>\n"
    + "               <tei:title type=\"main\">The Holy Scriptures</tei:title>\n"
    + "               <tei:title type=\"sub\">According to the Masoretic Text: A New Translation With The Aid of Previous Versions And With Constant Consultation of Jewish Authorities</tei:title>\n"
    + "               <tei:title xml:lang=\"he\" type=\"alt\">\U{05ea}\U{05d5}\U{05e8}\U{05d4} \U{05e0}\U{05d1}\U{05d9}\U{05d0}\U{05d9}\U{05dd} \U{05d5}\U{05db}\U{05ea}\U{05d5}\U{05d1}\U{05d9}\U{05dd}</tei:title>\n"
    + "               <tei:edition>Third Impression, August 1919</tei:edition>\n"
    + "               <tei:publisher>Jewish Publication Society of America</tei:publisher>\n"
    + "               <tei:pubPlace>Philadelphia</tei:pubPlace>\n"
    + "               <tei:date>1917</tei:date>\n"
    + "               <tei:note>Lakeside Press, Chicago</tei:note>\n"
    + "            </tei:bibl>\n"
    + "        </tei:sourceDesc>\n"
    + "    </tei:fileDesc>\n"
    + "</tei:teiHeader>\n"
  }

  /** The header after the URN `idno` element. */
  function HeaderClosing(a: HeaderArgs): string
  {
    LicenceOpening + a.licenseUrl + "\">" + a.licenseName + LicenceClosing + SourceDescription()
  }

  const LicenceOpening :=
    "\n"
    + "            <tei:availability status=\"free\">\n"
    + "               <tei:licence target=\""

  const LicenceClosing := "</tei:licence>\n"

  /** `header(...)` */
  function Header(quote: string -> string, a: HeaderArgs): string
  {
    HeaderLayout(TitleLines(a), RespStmts(quote, a), IdnoElement(a), HeaderClosing(a))
  }

  /** The header's parts in their order. */
  function HeaderLayout(title: string, respStmts: string, idno: string, closing: string): string
  {
    title + respStmts + PublicationOpening + idno + closing
  }

  /** `tei_file(header, default_lang, front, body, back, standOff)` */
  function TeiFile(header: string, defaultLang: string, front: string, body: string, back: string, standOff: string): string
  {
    TeiRoot(defaultLang) + header + TeiText(front, body, back, standOff)
  }

  /** The root element's start tag, up to the header. */
  function TeiRoot(defaultLang: string): string
  {
    "<tei:TEI xml:lang=\"" + defaultLang + TeiNamespaces
  }

  const TeiNamespaces := "\" xmlns:tei=\"http://www.tei-c.org/ns/1.0\" xmlns:j=\"http://jewishliturgy.org/ns/jlptei/2\">\n    "

  /** After the header: the text's front, body and back, then the stand-off
      annotations. */
  function TeiText(front: string, body: string, back: string, standOff: string): string
  {
    TextOpening + front + "\n    " + body + TeiTail(back, standOff)
  }

  const TextOpening := "\n    <tei:text>\n    "

  function TeiTail(back: string, standOff: string): string
  {
    "\n    " + back + TextClosing + standOff + RootClosing
  }

  const TextClosing := "\n    </tei:text>\n    "
  const RootClosing := "\n    </tei:TEI>\n    "

  // ---------------------------------------------------------------------
  // Properties of the header

  /** The transcribers are the credits other than the bot, in their order. */
  lemma TranscribersMeans(credits: seq<string>)
    ensures forall c :: c in Transcribers(credits) <==> c in credits && c != Bot
    ensures |Transcribers(credits)| <= |credits|
    ensures Bot !in credits ==> Transcribers(credits) == credits
  {
    if Bot !in credits {
      FilterKeepsAll(credits);
    }
  }

  lemma {:induction false} FilterKeepsAll(credits: seq<string>)
    requires Bot !in credits
    ensures Transcribers(credits) == credits
  {
    if |credits| > 0 {
      FilterKeepsAll(credits[1..]);
    }
  }

  /** The header gives every transcriber but the bot a `respStmt`. */
  lemma HeaderCreditsTranscriber(quote: string -> string, a: HeaderArgs, name: string)
    requires name in CreditsArg(a) && name != Bot
    ensures PyStr.Contains(Header(quote, a), RespStmt(quote, name))
  {
    RespStmtsCredit(quote, CreditsArg(a), name);
    RespStmtsInHeader(quote, a, RespStmt(quote, name));
  }

  /** The transcribers' lines hold a `respStmt` for every credit but the bot. */
  lemma RespStmtsCredit(quote: string -> string, credits: seq<string>, name: string)
    requires name in credits && name != Bot
    ensures PyStr.Contains(PyStr.Join(RespStmtList(quote, credits), "\n"), RespStmt(quote, name))
  {
    var t := Transcribers(credits);
    assert name in t;
    var k :| 0 <= k < |t| && t[k] == name;
    var parts := RespStmtList(quote, credits);
    var x := parts[k];
    PyStr.JoinContains(parts, "\n", k);
    assert x == RespStmt(quote, name);
  }

  /** What the transcribers' lines contain, the header contains. */
  lemma RespStmtsInHeader(quote: string -> string, a: HeaderArgs, x: string)
    requires PyStr.Contains(RespStmts(quote, a), x)
    ensures PyStr.Contains(Header(quote, a), x)
  {
    InLayout(TitleLines(a), RespStmts(quote, a), IdnoElement(a), HeaderClosing(a), x);
  }

  lemma InLayout(title: string, respStmts: string, idno: string, closing: string, x: string)
    requires PyStr.Contains(respStmts, x)
    ensures PyStr.Contains(HeaderLayout(title, respStmts, idno, closing), x)
  {
    PyStr.ContainsPrepend(title, respStmts, x);
    PyStr.ContainsAppend(title + respStmts, PublicationOpening, x);
    PyStr.ContainsAppend(title + respStmts + PublicationOpening, idno, x);
    PyStr.ContainsAppend(title + respStmts + PublicationOpening + idno, closing, x);
  }

  /** The header declares the project URN. */
  lemma HeaderDeclaresProject(quote: string -> string, a: HeaderArgs)
    ensures PyStr.Contains(Header(quote, a), IdnoElement(a))
  {
    IdnoInLayout(TitleLines(a), RespStmts(quote, a), IdnoElement(a), HeaderClosing(a));
  }

  lemma IdnoInLayout(title: string, respStmts: string, idno: string, closing: string)
    ensures PyStr.Contains(HeaderLayout(title, respStmts, idno, closing), idno)
  {
    PyStr.ContainsInfix(title + respStmts + PublicationOpening, idno, closing);
  }

  /** The project the URN names is read back from it as the part after its
      last '@'. */
  lemma IdnoNamesProject(namespace: string, entrypoint: string, qualifier: string, projectId: string)
    requires '@' !in projectId
    ensures Urn.Qualifier(Idno(namespace, entrypoint, qualifier, projectId))
      == (TextUrnPrefix + namespace + ":" + entrypoint + qualifier, Some(projectId))
  {
    Urn.QualifierOf(TextUrnPrefix + namespace + ":" + entrypoint + qualifier, projectId);
  }

  /** The TEI file holds the header and the body it is given. */
  lemma TeiFileHolds(header: string, defaultLang: string, front: string, body: string, back: string, standOff: string)
    ensures PyStr.Contains(TeiFile(header, defaultLang, front, body, back, standOff), header)
    ensures PyStr.Contains(TeiFile(header, defaultLang, front, body, back, standOff), body)
  {
    var text := TeiText(front, body, back, standOff);
    PyStr.ContainsInfix(TeiRoot(defaultLang), header, text);
    PyStr.ContainsInfix(TextOpening + front + "\n    ", body, TeiTail(back, standOff));
    PyStr.ContainsPrepend(TeiRoot(defaultLang) + header, text, body);
  }

  // ---------------------------------------------------------------------
  // The stylesheet's outputs

  /** The keyword arguments `mediawiki_xml_to_tei` returns for `tei_file`. */
  datatype TeiParts = TeiParts(front: string, body: string, standOff: string)

  /** `mediawiki_xml_to_tei` after the transformation: `outputs` maps each
      result document's name to its text, "" naming the principal one. */
  function MediawikiXmlToTei(outputs: map<string, string>): (r: Result<TeiParts, PyError>)
    ensures r.Err? <==> "" !in outputs
    ensures r.Ok? && PyStr.Contains(outputs[""], "tei:front") ==> r.value.front == outputs[""]
    ensures r.Ok? && !PyStr.Contains(outputs[""], "tei:front") ==> r.value.front == ""
    ensures r.Ok? && PyStr.Contains(outputs[""], "tei:body") ==> r.value.body == outputs[""]
    ensures r.Ok? && !PyStr.Contains(outputs[""], "tei:body") ==> r.value.body == ""
    ensures r.Ok? && r.value.standOff != "" ==>
      "standoff" in outputs && r.value.standOff == outputs["standoff"] && PyStr.Contains(outputs["standoff"], "tei:note")
    ensures r.Ok? && "standoff" in outputs && PyStr.Contains(outputs["standoff"], "tei:note") ==>
      r.value.standOff == outputs["standoff"]
  {
    if "" !in outputs then Err(KeyError(""))
    else
      var main := outputs[""];
      Ok(TeiParts(
        if PyStr.Contains(main, "tei:front") then main else "",
        if PyStr.Contains(main, "tei:body") then main else "",
        if "standoff" in outputs && PyStr.Contains(outputs["standoff"], "tei:note") then outputs["standoff"] else ""))
  }

  // ---------------------------------------------------------------------
  // Books and indexes

  /** `Book` and `Index`: a book file, or an index file that transcludes
      its parts and may take its own content from a range of pages. */
  datatype Part =
    | Book(bookNameHe: string, bookNameEn: string, fileName: string, startPage: int, endPage: int, isSection: bool)
    | Index(indexTitleEn: string, indexTitleHe: Option<string>, indexSubHe: Option<string>, indexSubEn: Option<string>,
            fileName: string, transclusions: seq<Part>, start: Option<int>, end: Option<int>)

  /** The transclusion of a part's file: one line when the name is. */
  function Transclude(fileName: string): (r: string)
    ensures '\n' !in fileName ==> '\n' !in r
  {
    "<j:transclude" + " target=\"" + "urn:x-opensiddur:" + "text:bible:" + fileName + "\"/>"
  }

  /** One transclusion per part, one per line. */
  function TransclusionStr(transclusions: seq<Part>): string
  {
    PyStr.Join(seq(|transclusions|, k requires 0 <= k < |transclusions| => Transclude(transclusions[k].fileName)), "\n")
  }

  /** Reading the transclusion lines back gives each part's transclusion,
      in order, when no file name holds a line break. */
  lemma TransclusionLines(transclusions: seq<Part>)
    requires |transclusions| >= 1
    requires forall k :: 0 <= k < |transclusions| ==> '\n' !in transclusions[k].fileName
    ensures var lines := PyStr.Split(TransclusionStr(transclusions), '\n');
      |lines| == |transclusions|
      && forall k :: 0 <= k < |lines| ==> lines[k] == Transclude(transclusions[k].fileName)
  {
    var parts := seq(|transclusions|, k requires 0 <= k < |transclusions| => Transclude(transclusions[k].fileName));
    assert "\n" == ['\n'];
    PyStr.SplitJoin(parts, '\n');
  }

  /** The body of an index file: its title and its transclusions. */
  function IndexBody(idx: Part): string
    requires idx.Index?
  {
    IndexBodyOpening + idx.indexTitleEn + IndexHeadClosing + TransclusionStr(idx.transclusions) + IndexBodyClosing
  }

  const IndexBodyOpening := "<tei:body>\n    <tei:div>\n        <tei:head>"
  const IndexHeadClosing := "</tei:head>\n        "
  const IndexBodyClosing := "\n    </tei:div>\n</tei:body>\n    "

  /** The given parts of a TEI file, the others taking `tei_file`'s defaults. */
  function TeiOf(header: string, parts: TeiParts): string
  {
    TeiFile(header, "en", parts.front, parts.body, "", parts.standOff)
  }

  /** The TEI file of a header and what `process_mediawiki` returned: the
      error it raised, or the file with the parts it produced. */
  function TeiResult(header: string, processed: Result<TeiParts, PyError>): Result<string, PyError>
  {
    match processed
    case Err(e) => Err(e)
    case Ok(parts) => Ok(TeiOf(header, parts))
  }

  /** The file fails exactly when processing does, and otherwise holds the
      header, the body, and whatever these contain. */
  lemma TeiResultMeans(header: string, processed: Result<TeiParts, PyError>, x: string)
    ensures TeiResult(header, processed).Err? <==> processed.Err?
    ensures processed.Err? ==> TeiResult(header, processed).error == processed.error
    ensures processed.Ok? ==> PyStr.Contains(TeiResult(header, processed).value, header)
    ensures processed.Ok? && PyStr.Contains(header, x) ==> PyStr.Contains(TeiResult(header, processed).value, x)
    ensures processed.Ok? && PyStr.Contains(processed.value.body, x) ==>
      PyStr.Contains(TeiResult(header, processed).value, x)
  {
    if processed.Ok? {
      TeiHolds(header, processed.value, header);
      if PyStr.Contains(header, x) || PyStr.Contains(processed.value.body, x) {
        TeiHolds(header, processed.value, x);
      }
    }
  }

  /** What the header or the body contains, the TEI file contains. */
  lemma TeiHolds(header: string, parts: TeiParts, x: string)
    requires PyStr.Contains(header, x) || PyStr.Contains(parts.body, x) || x == header
    ensures PyStr.Contains(TeiOf(header, parts), x)
  {
    var text := TeiFile(header, "en", parts.front, parts.body, "", parts.standOff);
    TeiFileHolds(header, "en", parts.front, parts.body, "", parts.standOff);
    if x == header {
    } else if PyStr.Contains(header, x) {
      PyStr.ContainsTransitive(text, header, x);
    } else {
      PyStr.ContainsTransitive(text, parts.body, x);
    }
  }

  /** The header arguments `book_file` passes. */
  function BookHeader(book: Part, credits: seq<string>): HeaderArgs
    requires book.Book?
  {
    HeaderWithDefaults(Some(book.bookNameHe), book.bookNameEn, None, None, Some(credits))
  }

  /** `book_file`: the book's TEI file from the header with its pages'
      transcribers and the stylesheet's parts for those pages;
      `process(start, end, wrapper)` is what `process_mediawiki` returns. */
  method BookFile(quote: string -> string, creditsDir: Pages.Directory,
                  process: (int, int, string) -> Result<TeiParts, PyError>, book: Part)
    returns (r: Result<string, PyError>, ghost credits: seq<string>)
    requires book.Book?
    ensures IsCreditList(creditsDir, book.startPage, book.endPage, credits)
    ensures r == TeiResult(Header(quote, BookHeader(book, credits)), process(book.startPage, book.endPage, "body"))
  {
    var transcriptionCredits, _ := GetCreditsPages(creditsDir, book.startPage, book.endPage);
    credits := transcriptionCredits;
    var headerContent := Header(quote, BookHeader(book, transcriptionCredits));
    r := TeiResult(headerContent, process(book.startPage, book.endPage, "body"));
  }

  /** The header arguments `index_file` passes. */
  function IndexHeader(idx: Part, credits: Option<seq<string>>): HeaderArgs
    requires idx.Index?
  {
    HeaderWithDefaults(idx.indexTitleHe, idx.indexTitleEn, idx.indexSubHe, idx.indexSubEn, credits)
  }

  /** What `process_mediawiki` yields for an index without pages: none of
      its parts, as `tei_file`'s defaults give. */
  const NoParts := TeiParts("", "", "")

  /** The parts of an index file: its body is always the list of its
      transclusions. */
  function WithIndexBody(idx: Part, processed: Result<TeiParts, PyError>): Result<TeiParts, PyError>
    requires idx.Index?
  {
    if processed.Ok? then Ok(processed.value.(body := IndexBody(idx))) else processed
  }

  /** The credits of an index: those of its pages when both ends of the
      range are given, and None otherwise. */
  ghost predicate IsIndexCredits(creditsDir: Pages.Directory, idx: Part, credits: Option<seq<string>>)
    requires idx.Index?
  {
    (credits.Some? <==> idx.start.Some? && idx.end.Some?)
    && (credits.Some? ==> IsCreditList(creditsDir, idx.start.value, idx.end.value, credits.value))
  }

  /** The credits `index_file` reads for its header. */
  method IndexCredits(creditsDir: Pages.Directory, idx: Part) returns (credits: Option<seq<string>>)
    requires idx.Index?
    ensures IsIndexCredits(creditsDir, idx, credits)
  {
    credits := None;
    if idx.start.Some? && idx.end.Some? {
      var found, _ := GetCreditsPages(creditsDir, idx.start.value, idx.end.value);
      credits := Some(found);
    }
  }

  /** What `index_file` takes from the stylesheet: the front matter of its
      pages when both ends of the range are given, and no parts otherwise. */
  function IndexProcessed(process: (int, int, string) -> Result<TeiParts, PyError>, idx: Part): Result<TeiParts, PyError>
    requires idx.Index?
  {
    if idx.start.Some? && idx.end.Some? then process(idx.start.value, idx.end.value, "front") else Ok(NoParts)
  }

  /** `index_file` for the index itself: the header credits the
      transcribers of its pages, the stylesheet supplies the front matter,
      and the body is the transclusion list. */
  method IndexFile(quote: string -> string, creditsDir: Pages.Directory,
                   process: (int, int, string) -> Result<TeiParts, PyError>, idx: Part)
    returns (r: Result<string, PyError>, ghost credits: Option<seq<string>>)
    requires idx.Index?
    ensures IsIndexCredits(creditsDir, idx, credits)
    ensures r == TeiResult(Header(quote, IndexHeader(idx, credits)), WithIndexBody(idx, IndexProcessed(process, idx)))
  {
    var transcriptionCredits := IndexCredits(creditsDir, idx);
    credits := transcriptionCredits;
    var headerContent := Header(quote, IndexHeader(idx, transcriptionCredits));
    r := TeiResult(headerContent, WithIndexBody(idx, IndexProcessed(process, idx)));
  }

  /** An index's parts keep the processing error, and otherwise have the
      transclusion list as their body, which transcludes every part. */
  lemma WithIndexBodyMeans(idx: Part, processed: Result<TeiParts, PyError>, k: nat)
    requires idx.Index?
    ensures WithIndexBody(idx, processed).Err? <==> processed.Err?
    ensures processed.Ok? && k < |idx.transclusions| ==>
      PyStr.Contains(WithIndexBody(idx, processed).value.body, Transclude(idx.transclusions[k].fileName))
  {
    if processed.Ok? && k < |idx.transclusions| {
      TransclusionInBody(idx, k);
    }
  }

  /** A TEI file that was produced credits every transcriber its header
      was given but the bot. */
  lemma TeiCreditsTranscriber(quote: string -> string, a: HeaderArgs, processed: Result<TeiParts, PyError>, name: string)
    requires processed.Ok? && name in CreditsArg(a) && name != Bot
    ensures var r := TeiResult(Header(quote, a), processed);
      r.Ok? && PyStr.Contains(r.value, RespStmt(quote, name))
  {
    HeaderCreditsTranscriber(quote, a, name);
    TeiResultMeans(Header(quote, a), processed, RespStmt(quote, name));
  }

  /** An index file that was produced holds its header and transcludes each
      of its parts. */
  lemma IndexFileHolds(header: string, idx: Part, processed: Result<TeiParts, PyError>, k: nat)
    requires idx.Index? && processed.Ok?
    ensures var r := TeiResult(header, WithIndexBody(idx, processed));
      && r.Ok? && PyStr.Contains(r.value, header)
      && (k < |idx.transclusions| ==> PyStr.Contains(r.value, Transclude(idx.transclusions[k].fileName)))
  {
    var parts := WithIndexBody(idx, processed);
    WithIndexBodyMeans(idx, processed, k);
    TeiResultMeans(header, parts, if k < |idx.transclusions| then Transclude(idx.transclusions[k].fileName) else "");
  }

  /** The index body transcludes each part. */
  lemma TransclusionInBody(idx: Part, k: nat)
    requires idx.Index? && k < |idx.transclusions|
    ensures PyStr.Contains(IndexBody(idx), Transclude(idx.transclusions[k].fileName))
  {
    var parts := seq(|idx.transclusions|, i requires 0 <= i < |idx.transclusions| => Transclude(idx.transclusions[i].fileName));
    assert parts[k] == Transclude(idx.transclusions[k].fileName);
    PyStr.JoinContains(parts, "\n", k);
    PyStr.ContainsWithin(IndexBodyOpening + idx.indexTitleEn + IndexHeadClosing, TransclusionStr(idx.transclusions),
                         IndexBodyClosing, parts[k]);
  }

  /** The files `index_file` writes, in order: the index's own, then each
      transclusion's, an index's depth first. */
  function FilesWritten(part: Part): seq<string>
    decreases part
  {
    match part
    case Book(_, _, fileName, _, _, _) => [fileName]
    case Index(_, _, _, _, fileName, transclusions, _, _) => [fileName] + FilesOf(transclusions)
  }

  function FilesOf(parts: seq<Part>): seq<string>
    decreases parts
  {
    if |parts| == 0 then [] else FilesWritten(parts[0]) + FilesOf(parts[1..])
  }

  /** Every file an index transcludes is written. */
  lemma TranscludedFilesWritten(idx: Part, k: nat)
    requires idx.Index? && k < |idx.transclusions|
    ensures idx.transclusions[k].fileName in FilesWritten(idx)
  {
    TranscludedAmong(idx.transclusions, k);
  }

  lemma {:induction false} TranscludedAmong(parts: seq<Part>, k: nat)
    requires k < |parts|
    ensures parts[k].fileName in FilesOf(parts)
  {
    if k > 0 {
      TranscludedAmong(parts[1..], k - 1);
    }
  }
}
