/** Preparing the 1917 JPS source files: renaming each book file to the
    Westminster Leningrad Codex naming and rewriting long runs of blank
    lines into page-break elements. */
module Prepare {
  import opened Wrappers
  import PyStr

  /** `FILENAME_MAPPING`: the upper-case base name of each 1917 JPS source
      file to the base name of the file `prepare` writes. */
  const FilenameMapping: map<string, string> := map[
    "GENESIS" := "genesis",
    "EXODUS" := "exodus",
    "LEVITICUS" := "leviticus",
    "NUMBERS" := "numbers",
    "DEUTERONOMY" := "deuteronomy",
    "JOSHUA" := "joshua",
    "JUDGES" := "judges",
    "RUTH" := "ruth",
    "FIRST SAMUEL" := "samuel_1",
    "SECOND SAMUEL" := "samuel_2",
    "FIRST KINGS" := "kings_1",
    "SECOND KINGS" := "kings_2",
    "FIRST CHRONICLES" := "chronicles_1",
    "SECOND CHRONICLES" := "chronicles_2",
    "EZRA" := "ezra",
    "NEHEMIAH" := "nehemiah",
    "ESTHER" := "esther",
    "JOB" := "job",
    "PSALMS" := "psalms",
    "PROVERBS" := "proverbs",
    "ECCLESIASTES" := "ecclesiastes",
    "SONG OF SONGS" := "song_of_songs",
    "ISAIAH" := "isaiah",
    "JEREMIAH" := "jeremiah",
    "LAMENTATIONS" := "lamentations",
    "EZEKIEL" := "ezekiel",
    "DANIEL" := "daniel",
    "HOSEA" := "hosea",
    "JOEL" := "joel",
    "AMOS" := "amos",
    "OBADIAH" := "obadiah",
    "JONAH" := "jonah",
    "MICAH" := "micah",
    "NAHUM" := "nahum",
    "HABAKKUK" := "habakkuk",
    "ZEPHANIAH" := "zephaniah",
    "HAGGAI" := "haggai",
    "ZECHARIAH" := "zechariah",
    "MALACHI" := "malachi",
    "THE TWELVE" := "the_twelve",
    "PREFACE" := "preface",
    "TABLE OF READINGS" := "table_of_readings",
    "THE LAW" := "the_law",
    "THE ORDER OF THE BOOKS" := "order_of_the_books",
    "THE PROPHETS" := "the_prophets",
    "THE WRITINGS" := "the_writings",
    "TITLE PAGE" := "title_page"
  ]

  // ---------------------------------------------------------------------
  // map_filename, over a mapping given as a parameter (`FilenameMapping` in
  // the source)

  /** `map_filename` as written: the mapping of the upper-cased name, and an
      exception for a name with no mapping. */
  function MapFilenameAsWritten(mapping: map<string, string>, jpsFilename: string): (r: Result<string, PyError>)
    ensures r.Ok? <==> PyStr.Upper(jpsFilename) in mapping
    ensures r.Ok? ==> r.value == mapping[PyStr.Upper(jpsFilename)]
    ensures r.Err? ==> r.error == Exception("Invalid filename: " + jpsFilename)
  {
    var baseName := PyStr.Upper(jpsFilename);
    if baseName in mapping then Ok(mapping[baseName])
    else Err(Exception("Invalid filename: " + jpsFilename))
  }

  /** `map_filename` as its documentation and its caller in `prepare` take
      it: None for a name with no mapping. */
  function MapFilename(mapping: map<string, string>, jpsFilename: string): (r: Option<string>)
    ensures r.Some? <==> PyStr.Upper(jpsFilename) in mapping
  {
    var baseName := PyStr.Upper(jpsFilename);
    if baseName in mapping then Some(mapping[baseName]) else None
  }

  /** The two readings agree on every mapped name and differ only in how an
      unmapped name is reported. */
  lemma MapFilenameAgrees(mapping: map<string, string>, jpsFilename: string)
    ensures MapFilename(mapping, jpsFilename).Some? <==> MapFilenameAsWritten(mapping, jpsFilename).Ok?
    ensures MapFilename(mapping, jpsFilename).Some? ==>
      MapFilename(mapping, jpsFilename).value == MapFilenameAsWritten(mapping, jpsFilename).value
    ensures MapFilename(mapping, jpsFilename).None? ==>
      MapFilenameAsWritten(mapping, jpsFilename) == Err(Exception("Invalid filename: " + jpsFilename))
  {
  }

  /** Upper-casing forgets the case the name was written in. */
  lemma {:induction false} UpperOfLower(s: string)
    ensures PyStr.Upper(PyStr.Lower(s)) == PyStr.Upper(s)
  {
    var l := PyStr.Lower(s);
    forall i | 0 <= i < |s| ensures PyStr.Upper(l)[i] == PyStr.Upper(s)[i] {
      assert l[i] == PyStr.LowerChar(s[i]);
    }
  }

  /** The lookup is case-insensitive: any spelling of a name that upper-cases
      to the same key is mapped alike, lower case included. */
  lemma MapFilenameCaseInsensitive(mapping: map<string, string>, a: string, b: string)
    requires PyStr.Upper(a) == PyStr.Upper(b)
    ensures MapFilename(mapping, a) == MapFilename(mapping, b)
    ensures MapFilename(mapping, PyStr.Lower(a)) == MapFilename(mapping, a)
  {
    UpperOfLower(a);
  }

  // ---------------------------------------------------------------------
  // The page-break rewrite `re.sub(r'(\n\s+){4,}', '<page-break/>\n', content)`

  const PageBreak: string := "<page-break/>\n"

  /** The end of the run of whitespace starting at `i`. */
  function RunEnd(s: string, i: nat): (e: nat)
    requires i <= |s|
    ensures i <= e <= |s| && (e == |s| || !PyStr.IsSpace(s[e]))
    ensures forall k :: i <= k < e ==> PyStr.IsSpace(s[k])
    decreases |s| - i
  {
    if i < |s| && PyStr.IsSpace(s[i]) then RunEnd(s, i + 1) else i
  }

  /** The first newline in `s[from..end)`. */
  function NextNewline(s: string, from: nat, end: nat): (r: Option<nat>)
    requires end <= |s|
    ensures r.Some? ==> from <= r.value < end && s[r.value] == '\n'
    ensures forall k :: from <= k < (if r.Some? then r.value else end) ==> s[k] != '\n'
    decreases end - from
  {
    if from >= end then None else if s[from] == '\n' then Some(from) else NextNewline(s, from + 1, end)
  }

  /** How many groups `\n\s+` the text from `p` to `end` is cut into when
      each group stops at the first newline that can start the next one. */
  function Greedy(s: string, p: nat, end: nat): nat
    requires p <= end <= |s|
    decreases end - p
  {
    if p + 2 > end || s[p] != '\n' then 0
    else match NextNewline(s, p + 2, end)
      case None => 1
      case Some(q) => 1 + Greedy(s, q, end)
  }

  /** `s[p..e)` is `k` successive groups, each a newline and one or more
      further characters. */
  ghost predicate Groups(s: string, p: nat, e: nat, k: nat)
    requires p <= e <= |s|
    decreases k, 1
  {
    if k == 0 then p == e
    else p + 2 <= e && s[p] == '\n' && exists j :: p + 2 <= j <= e && GroupsAfter(s, j, e, k)
  }

  /** The `k - 1` groups after the first of `k`, starting at `j`. */
  ghost predicate GroupsAfter(s: string, j: nat, e: nat, k: nat)
    requires j <= e <= |s| && k > 0
    decreases k, 0
  {
    Groups(s, j, e, k - 1)
  }

  /** The pattern `(\n\s+){4,}` matches `s[i..e)`. */
  ghost predicate PatternMatch(s: string, i: nat, e: nat)
  {
    i <= e <= |s| && (forall k :: i <= k < e ==> PyStr.IsSpace(s[k]))
    && exists n :: n >= 4 && Groups(s, i, e, n)
  }

  /** Where the rewrite puts a page break: a newline whose whitespace run
      holds at least four groups. */
  predicate BreakAt(s: string, i: nat)
    requires i < |s|
  {
    s[i] == '\n' && Greedy(s, i, RunEnd(s, i)) >= 4
  }

  /** The greedy cut is a cut: it splits the whole stretch into `k` groups
      for any `k` up to its count. */
  lemma {:induction false} GreedySound(s: string, p: nat, end: nat, k: nat)
    requires p <= end <= |s| && 1 <= k <= Greedy(s, p, end)
    ensures Groups(s, p, end, k)
    decreases end - p
  {
    assert Groups(s, end, end, 0);
    if k > 1 {
      var q := NextNewline(s, p + 2, end).value;
      GreedySound(s, q, end, k - 1);
      assert GroupsAfter(s, q, end, k);
    } else {
      assert GroupsAfter(s, end, end, k);
    }
  }

  /** No cut has more groups than the greedy one, even one starting at a
      later newline or stopping short of `end`. */
  lemma {:induction false} GreedyComplete(s: string, p: nat, j: nat, e: nat, end: nat, m: nat)
    requires p <= j <= e <= end <= |s| && (p == j || s[p] == '\n')
    requires Groups(s, j, e, m)
    ensures Greedy(s, p, end) >= m
    decreases m
  {
    if m >= 2 {
      var j2 :| j + 2 <= j2 <= e && GroupsAfter(s, j2, e, m);
      var next := NextNewline(s, p + 2, end);
      assert Groups(s, j2, e, m - 1);
      assert s[j2] == '\n';
      var q := next.value;
      GreedyComplete(s, q, j2, e, end, m - 1);
    }
  }

  /** The rewrite breaks exactly where the pattern matches, and it replaces
      the longest match there: the whole whitespace run. */
  lemma BreakAtIsMatch(s: string, i: nat)
    requires i < |s|
    ensures BreakAt(s, i) <==> exists e :: PatternMatch(s, i, e)
    ensures BreakAt(s, i) ==> PatternMatch(s, i, RunEnd(s, i))
    ensures forall e: nat :: PatternMatch(s, i, e) ==> e <= RunEnd(s, i)
  {
    var end := RunEnd(s, i);
    forall e: nat | PatternMatch(s, i, e) ensures e <= end && BreakAt(s, i) {
      var n :| n >= 4 && Groups(s, i, e, n);
      GreedyComplete(s, i, i, e, end, n);
    }
    if BreakAt(s, i) {
      GreedySound(s, i, end, 4);
      assert PatternMatch(s, i, end);
    }
  }

  /** The text from `i` on with every match replaced by a page break,
      scanning left to right and resuming after each match. */
  function PageBreaks(s: string, i: nat): string
    requires i <= |s|
    decreases |s| - i
  {
    if i == |s| then ""
    else if BreakAt(s, i) then PageBreak + PageBreaks(s, RunEnd(s, i))
    else [s[i]] + PageBreaks(s, i + 1)
  }

  /** The content `process_file` writes. */
  function ProcessContent(content: string): string
  {
    PageBreaks(content, 0)
  }

  /** Text in which the pattern matches nowhere is left as it is. */
  lemma {:induction false} NoMatchUnchanged(s: string, i: nat)
    requires i <= |s|
    requires forall k :: i <= k < |s| ==> !BreakAt(s, k)
    ensures PageBreaks(s, i) == s[i..]
    decreases |s| - i
  {
    if i < |s| {
      NoMatchUnchanged(s, i + 1);
      assert s[i..] == [s[i]] + s[i + 1..];
    }
  }

  /** The greedy count never exceeds the number of newlines it passes. */
  lemma {:induction false} GreedyAtMostNewlines(s: string, p: nat, end: nat)
    requires p <= end <= |s|
    ensures Greedy(s, p, end) <= NewlineCount(s[p..end])
    decreases end - p
  {
    if p + 2 <= end && s[p] == '\n' {
      NewlineCountSplit(s[p..end], 1);
      assert s[p..end][..1] == ['\n'];
      match NextNewline(s, p + 2, end)
      case None =>
      case Some(q) =>
        GreedyAtMostNewlines(s, q, end);
        NewlineCountSplit(s[p..end], q - p);
        assert s[p..end][q - p..] == s[q..end];
    }
  }

  function NewlineCount(s: string): nat
  {
    if |s| == 0 then 0 else (if s[0] == '\n' then 1 else 0) + NewlineCount(s[1..])
  }

  lemma {:induction false} NewlineCountSplit(s: string, k: nat)
    requires k <= |s|
    ensures NewlineCount(s) == NewlineCount(s[..k]) + NewlineCount(s[k..])
  {
    if k > 0 {
      NewlineCountSplit(s[1..], k - 1);
      assert s[1..][..k - 1] == s[..k][1..];
      assert s[1..][k - 1..] == s[k..];
    }
  }

  /** Text with fewer than four newlines is never rewritten; a run of
      three blank lines is kept. */
  lemma FewNewlinesUnchanged(s: string)
    requires NewlineCount(s) < 4
    ensures ProcessContent(s) == s
  {
    forall k | 0 <= k < |s| ensures !BreakAt(s, k) {
      var e := RunEnd(s, k);
      GreedyAtMostNewlines(s, k, e);
      NewlineCountInfix(s, k, e);
    }
    NoMatchUnchanged(s, 0);
  }

  lemma NewlineCountInfix(s: string, a: nat, b: nat)
    requires a <= b <= |s|
    ensures NewlineCount(s[a..b]) <= NewlineCount(s)
  {
    NewlineCountSplit(s, a);
    NewlineCountSplit(s[a..], b - a);
    assert s[a..][..b - a] == s[a..b];
  }

  // ---------------------------------------------------------------------
  // prepare

  /** A name longer than ".xml" that ends in ".xml" has that suffix. */
  lemma SuffixOfXml(name: string)
    requires PyStr.EndsWith(name, ".xml") && |name| > 4
    ensures PyStr.Suffix(name) == ".xml"
  {
    var n := |name|;
    assert name[n - 4..] == ".xml";
    assert name[n - 4] == '.';
    assert PyStr.RFind(name, '.') == Some(n - 4);
  }

  /** The files of `source_dir.glob('*.xml')` that the loop goes on to
      process: the `.xml` suffix again, and not the schema. */
  predicate Processed(name: string)
  {
    PyStr.EndsWith(name, ".xml") && PyStr.Lower(PyStr.Suffix(name)) == ".xml" && PyStr.Lower(name) != "1917jps.xsd"
  }

  /** Every globbed name but ".xml" itself is processed. */
  lemma ProcessedXml(name: string)
    requires PyStr.EndsWith(name, ".xml")
    ensures Processed(name) <==> |name| > 4
  {
    if |name| > 4 {
      SuffixOfXml(name);
      assert PyStr.Lower(".xml") == ".xml";
      var l := PyStr.Lower(name);
      assert l[|l| - 1] == 'l';
      assert "1917jps.xsd"[10] == 'd';
    } else {
      assert name == ".xml";
      assert PyStr.RFind(name, '.') == Some(0);
    }
  }

  /** One `process_file(input_file, output_dir / f"{mapped_name}.xml")`. */
  datatype Job = Job(input: string, output: string)

  /** The jobs of `prepare` over a directory listing, when an unmapped name
      is skipped, in listing order. */
  function PreparePlan(mapping: map<string, string>, files: seq<string>): (r: seq<Job>)
  {
    if |files| == 0 then []
    else
      var name := files[|files| - 1];
      var front := PreparePlan(mapping, files[..|files| - 1]);
      var mapped := MapFilename(mapping, PyStr.Stem(name));
      if Processed(name) && mapped.Some? then front + [Job(name, mapped.value + ".xml")]
      else front
  }

  /** Every job is a processed, mapped file of the listing, written under
      its mapped name with ".xml". */
  lemma {:induction false} PreparePlanJobs(mapping: map<string, string>, files: seq<string>, k: nat)
    requires k < |PreparePlan(mapping, files)|
    ensures var job := PreparePlan(mapping, files)[k];
      && job.input in files && Processed(job.input)
      && MapFilename(mapping, PyStr.Stem(job.input)).Some?
      && job.output == MapFilename(mapping, PyStr.Stem(job.input)).value + ".xml"
  {
    var front := files[..|files| - 1];
    var r := PreparePlan(mapping, files);
    if k < |PreparePlan(mapping, front)| {
      PreparePlanJobs(mapping, front, k);
      assert r[k] == PreparePlan(mapping, front)[k];
      assert r[k].input in front;
    }
  }

  /** `prepare` as written: the jobs run before the first processed file
      with no mapping, and the exception that file raises. */
  function PrepareAsWritten(mapping: map<string, string>, files: seq<string>): (r: (seq<Job>, Option<PyError>))
  {
    if |files| == 0 then ([], None)
    else
      var name := files[|files| - 1];
      var front := PrepareAsWritten(mapping, files[..|files| - 1]);
      if front.1.Some? || !Processed(name) then front
      else match MapFilenameAsWritten(mapping, PyStr.Stem(name))
        case Err(x) => (front.0, Some(x))
        case Ok(m) => (front.0 + [Job(name, m + ".xml")], None)
  }

  /** `prepare`'s loop over the listing, skipping unmapped files. */
  method PrepareJobs(mapping: map<string, string>, files: seq<string>) returns (jobs: seq<Job>)
    ensures jobs == PreparePlan(mapping, files)
  {
    jobs := [];
    var i := 0;
    while i < |files|
      invariant 0 <= i <= |files|
      invariant jobs == PreparePlan(mapping, files[..i])
    {
      var inputFile := files[i];
      assert files[..i + 1][..i] == files[..i];
      if Processed(inputFile) {
        var mappedName := MapFilename(mapping, PyStr.Stem(inputFile));
        if mappedName.Some? {
          jobs := jobs + [Job(inputFile, mappedName.value + ".xml")];
        }
      }
      i := i + 1;
    }
    assert files[..i] == files;
  }

  /** `prepare()` with the source's own table. */
  method Prepare(files: seq<string>) returns (jobs: seq<Job>)
    ensures jobs == PreparePlan(FilenameMapping, files)
  {
    jobs := PrepareJobs(FilenameMapping, files);
  }

  /** When every processed file has a mapping, the code as written runs the
      same jobs and raises nothing. */
  lemma {:induction false} AsWrittenAgreesWhenMapped(mapping: map<string, string>, files: seq<string>)
    requires forall k :: 0 <= k < |files| && Processed(files[k]) ==> MapFilename(mapping, PyStr.Stem(files[k])).Some?
    ensures PrepareAsWritten(mapping, files) == (PreparePlan(mapping, files), None)
  {
    if |files| > 0 {
      AsWrittenAgreesWhenMapped(mapping, files[..|files| - 1]);
    }
  }

  /** The first processed file with no mapping stops the code as written:
      it raises, and the jobs run are those of the files before it, so a
      mapped book listed after it is never prepared. */
  lemma AsWrittenStopsAtUnmapped(mapping: map<string, string>, files: seq<string>, k: nat)
    requires k < |files| && Processed(files[k]) && MapFilename(mapping, PyStr.Stem(files[k])).None?
    requires forall j :: 0 <= j < k && Processed(files[j]) ==> MapFilename(mapping, PyStr.Stem(files[j])).Some?
    ensures PrepareAsWritten(mapping, files) == (PreparePlan(mapping, files[..k]), Some(Exception("Invalid filename: " + PyStr.Stem(files[k]))))
  {
    var before := files[..k];
    assert forall j :: 0 <= j < |before| ==> before[j] == files[j];
    AsWrittenAgreesWhenMapped(mapping, before);
    RaisesAt(mapping, files, k);
    StaysRaised(mapping, files, k + 1, |files|);
    assert files[..|files|] == files;
  }

  /** The unmapped file itself raises. */
  lemma RaisesAt(mapping: map<string, string>, files: seq<string>, k: nat)
    requires k < |files| && Processed(files[k]) && MapFilename(mapping, PyStr.Stem(files[k])).None?
    requires PrepareAsWritten(mapping, files[..k]).1 == None
    ensures PrepareAsWritten(mapping, files[..k + 1])
      == (PrepareAsWritten(mapping, files[..k]).0, Some(Exception("Invalid filename: " + PyStr.Stem(files[k]))))
  {
    var upTo := files[..k + 1];
    assert upTo[..|upTo| - 1] == files[..k] && upTo[|upTo| - 1] == files[k];
    MapFilenameAgrees(mapping, PyStr.Stem(files[k]));
    AsWrittenRaisesLast(mapping, upTo);
  }

  lemma AsWrittenRaisesLast(mapping: map<string, string>, files: seq<string>)
    requires |files| > 0 && Processed(files[|files| - 1])
    requires MapFilenameAsWritten(mapping, PyStr.Stem(files[|files| - 1])).Err?
    requires PrepareAsWritten(mapping, files[..|files| - 1]).1 == None
    ensures PrepareAsWritten(mapping, files)
      == (PrepareAsWritten(mapping, files[..|files| - 1]).0, Some(MapFilenameAsWritten(mapping, PyStr.Stem(files[|files| - 1])).error))
  {
  }

  /** Once raised, the exception ends the loop: later files change nothing. */
  lemma {:induction false} StaysRaised(mapping: map<string, string>, files: seq<string>, m: nat, n: nat)
    requires m <= n <= |files|
    requires PrepareAsWritten(mapping, files[..m]).1.Some?
    ensures PrepareAsWritten(mapping, files[..n]) == PrepareAsWritten(mapping, files[..m])
    decreases n - m
  {
    if m < n {
      var upTo := files[..m + 1];
      assert upTo[..m] == files[..m];
      StaysRaised(mapping, files, m + 1, n);
    }
  }

  /** The corrected plan skips an unmapped file and goes on. */
  lemma UnmappedSkipped(mapping: map<string, string>, files: seq<string>, k: nat)
    requires k < |files| && MapFilename(mapping, PyStr.Stem(files[k])).None?
    ensures PreparePlan(mapping, files[..k + 1]) == PreparePlan(mapping, files[..k])
  {
    var upTo := files[..k + 1];
    assert upTo[..|upTo| - 1] == files[..k] && upTo[|upTo| - 1] == files[k];
    PlanSkipsLast(mapping, upTo);
  }

  lemma PlanSkipsLast(mapping: map<string, string>, files: seq<string>)
    requires |files| > 0 && MapFilename(mapping, PyStr.Stem(files[|files| - 1])).None?
    ensures PreparePlan(mapping, files) == PreparePlan(mapping, files[..|files| - 1])
  {
  }
}
