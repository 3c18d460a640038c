/** The reference index (`ReferenceDatabase`): the `urn_mappings` table,
    whose primary key is (urn, project), and the `element_references` table,
    which has no key. Rows are kept in insertion order; `CURRENT_TIMESTAMP`
    is the `now` argument of each writing operation. */
module RefDb {
  import opened Wrappers
  import PyStr
  import Ordering
  import Seqs

  const UrnPrefix: string := "urn:x-opensiddur:"

  /** A mapping as returned to callers: the project, file and URN of a
      stored `urn_mappings` row. */
  datatype UrnMapping = UrnMapping(project: string, fileName: string, urn: string)

  /** A stored `urn_mappings` row. */
  datatype MappingRow = MappingRow(urn: string, project: string, fileName: string, updatedAt: int)

  /** A stored `element_references` row without its timestamps. */
  datatype Reference = Reference(
    elementPath: string,
    elementTag: string,
    elementType: Option<string>,
    targetStart: string,
    targetEnd: Option<string>,
    targetIsId: bool,
    correspondingUrn: Option<string>,
    project: string,
    fileName: string)

  datatype ReferenceRow = ReferenceRow(reference: Reference, updatedAt: int)

  /** An element of a parsed file as the indexer sees it: its lxml path, its
      tag and its attributes. A file is its elements in document order. */
  datatype IndexedElement = IndexedElement(path: string, tag: string, attrs: map<string, string>)

  function Attr(e: IndexedElement, key: string): Option<string>
  {
    if key in e.attrs then Some(e.attrs[key]) else None
  }

  function ToMapping(row: MappingRow): UrnMapping
  {
    UrnMapping(row.project, row.fileName, row.urn)
  }

  predicate KeysDistinct(rows: seq<MappingRow>)
  {
    forall i, j :: 0 <= i < j < |rows| ==> (rows[i].urn, rows[i].project) != (rows[j].urn, rows[j].project)
  }

  /** The WHERE clause `get_urn_mappings` picks from the truthiness of its
      arguments: both, urn only, project only, or none. */
  predicate MappingMatches(row: MappingRow, urn: Option<string>, project: Option<string>)
  {
    if Truthy(urn) && Truthy(project) then row.urn == urn.value && row.project == project.value
    else if Truthy(urn) then row.urn == urn.value
    else if Truthy(project) then row.project == project.value
    else true
  }

  /** The WHERE clause of `get_urn_mappings` as a row predicate. */
  function MatchMapping(urn: Option<string>, project: Option<string>): MappingRow -> bool
  {
    (row: MappingRow) => MappingMatches(row, urn, project)
  }

  /** `SELECT … FROM urn_mappings WHERE pick`, in insertion order. */
  function SelectMappings(rows: seq<MappingRow>, pick: MappingRow -> bool): (r: seq<UrnMapping>)
    ensures forall m :: m in r <==> (exists i :: 0 <= i < |rows| && pick(rows[i]) && m == ToMapping(rows[i]))
  {
    if |rows| == 0 then []
    else
      var t := SelectMappings(rows[1..], pick);
      assert forall i :: 1 <= i < |rows| ==> rows[i] == rows[1..][i - 1];
      if pick(rows[0]) then [ToMapping(rows[0])] + t else t
  }

  /** The position of the row with key (urn, project), if any. */
  function FindKey(rows: seq<MappingRow>, urn: string, project: string): (r: Option<nat>)
    ensures r.None? ==> forall i :: 0 <= i < |rows| ==> (rows[i].urn, rows[i].project) != (urn, project)
    ensures r.Some? ==> r.value < |rows| && rows[r.value].urn == urn && rows[r.value].project == project
  {
    if |rows| == 0 then None
    else if rows[0].urn == urn && rows[0].project == project then Some(0)
    else match FindKey(rows[1..], urn, project)
      case None => None
      case Some(i) => Some(i + 1)
  }

  /** The row stored under a key: the table read as a map. */
  function Lookup(rows: seq<MappingRow>, urn: string, project: string): Option<MappingRow>
  {
    match FindKey(rows, urn, project)
    case None => None
    case Some(i) => Some(rows[i])
  }

  /** `INSERT … ON CONFLICT(urn, project) DO UPDATE`: the row with that key
      gets the new file name and timestamp, or a new row is appended. */
  function Upsert(rows: seq<MappingRow>, urn: string, project: string, fileName: string, now: int): (r: seq<MappingRow>)
    ensures KeysDistinct(rows) ==> KeysDistinct(r)
    ensures MappingRow(urn, project, fileName, now) in r
    ensures forall x :: x in r ==> x in rows || x == MappingRow(urn, project, fileName, now)
    ensures forall i :: 0 <= i < |rows| && (rows[i].urn, rows[i].project) != (urn, project) ==> rows[i] in r
  {
    var row := MappingRow(urn, project, fileName, now);
    match FindKey(rows, urn, project)
    case None => rows + [row]
    case Some(i) =>
      var r := rows[i := row];
      assert r[i] == row;
      assert forall j :: 0 <= j < |rows| && j != i ==> r[j] == rows[j];
      r
  }

  lemma FindKeyUnique(rows: seq<MappingRow>, i: nat)
    requires KeysDistinct(rows) && i < |rows|
    ensures FindKey(rows, rows[i].urn, rows[i].project) == Some(i)
  {
  }

  /** After an upsert the key maps to the new row, and every other key maps
      to what it mapped to before: the table behaves as a map keyed by
      (urn, project), so one urn under two projects gives two rows. */
  lemma UpsertLookup(rows: seq<MappingRow>, urn: string, project: string, fileName: string, now: int, u: string, p: string)
    requires KeysDistinct(rows)
    ensures Lookup(Upsert(rows, urn, project, fileName, now), u, p) ==
      if (u, p) == (urn, project) then Some(MappingRow(urn, project, fileName, now)) else Lookup(rows, u, p)
  {
    var r := Upsert(rows, urn, project, fileName, now);
    var row := MappingRow(urn, project, fileName, now);
    if (u, p) == (urn, project) {
      var k :| 0 <= k < |r| && r[k] == row;
      FindKeyUnique(r, k);
    } else {
      match FindKey(rows, u, p)
      case None =>
        forall k | 0 <= k < |r| ensures (r[k].urn, r[k].project) != (u, p) {
          assert r[k] in rows || r[k] == row;
        }
      case Some(i) =>
        assert rows[i] in r;
        var k :| 0 <= k < |r| && r[k] == rows[i];
        FindKeyUnique(r, k);
    }
  }

  /** `sep.join` is not involved: `re.split(r'\s+', target)` gives the tokens. */
  function Tokens(target: string): seq<string>
  {
    PyStr.SplitOnWhitespace(target)
  }

  /** The reference row `add_reference` inserts for one target token. */
  function ReferenceFor(project: string, fileName: string, e: IndexedElement, token: string): Reference
  {
    Reference(e.path, e.tag, Attr(e, "type"), token,
      Some(if "targetEnd" in e.attrs then e.attrs["targetEnd"] else token),
      PyStr.StartsWith(token, "#"), Attr(e, "corresp"), project, fileName)
  }

  function RowsForTokens(project: string, fileName: string, e: IndexedElement, tokens: seq<string>, now: int): (r: seq<ReferenceRow>)
    ensures |r| == |tokens|
    ensures forall i :: 0 <= i < |tokens| ==> r[i] == ReferenceRow(ReferenceFor(project, fileName, e, tokens[i]), now)
  {
    if |tokens| == 0 then []
    else RowsForTokens(project, fileName, e, tokens[..|tokens| - 1], now) + [ReferenceRow(ReferenceFor(project, fileName, e, tokens[|tokens| - 1]), now)]
  }

  /** The rows `add_reference` inserts for an element. */
  function ReferenceRowsFor(project: string, fileName: string, e: IndexedElement, now: int): seq<ReferenceRow>
  {
    if !Truthy(Attr(e, "target")) then [] else RowsForTokens(project, fileName, e, Tokens(e.attrs["target"]), now)
  }

  /** None without a (non-empty) target; otherwise one row per
      whitespace-separated token, in order, whose end is the targetEnd
      attribute or else the token itself, and which is an ID reference
      exactly when the token starts with '#'. */
  lemma ReferenceRowsForFacts(project: string, fileName: string, e: IndexedElement, now: int)
    ensures var r := ReferenceRowsFor(project, fileName, e, now);
      && (!Truthy(Attr(e, "target")) ==> r == [])
      && (Truthy(Attr(e, "target")) ==> |r| == |Tokens(e.attrs["target"])| >= 1)
      && (Truthy(Attr(e, "target")) ==> forall i :: 0 <= i < |r| ==>
        var token := Tokens(e.attrs["target"])[i];
        && r[i].reference.targetStart == token
        && r[i].reference.targetIsId == PyStr.StartsWith(token, "#")
        && r[i].reference.targetEnd == Some(if "targetEnd" in e.attrs then e.attrs["targetEnd"] else token)
        && r[i].reference.elementPath == e.path && r[i].reference.project == project
        && r[i].reference.fileName == fileName)
  {
    if Truthy(Attr(e, "target")) {
      PyStr.SplitOnWhitespaceFacts(e.attrs["target"]);
    }
  }

  /** Every row `add_reference` inserts belongs to the given file. */
  lemma ReferenceRowsForOfFile(project: string, fileName: string, e: IndexedElement, now: int)
    ensures forall x :: x in ReferenceRowsFor(project, fileName, e, now) ==>
      x.reference.project == project && x.reference.fileName == fileName
  {
  }

  predicate DeclaresUrn(e: IndexedElement)
  {
    Truthy(Attr(e, "corresp")) && PyStr.StartsWith(e.attrs["corresp"], UrnPrefix)
  }

  predicate HasTarget(e: IndexedElement)
  {
    "target" in e.attrs
  }

  /** The urn_mappings table after the first loop of `index_file`. */
  function MappingsAfterIndexing(rows: seq<MappingRow>, els: seq<IndexedElement>, project: string, fileName: string, now: int): (r: seq<MappingRow>)
    ensures KeysDistinct(rows) ==> KeysDistinct(r)
  {
    if |els| == 0 then rows
    else
      var before := MappingsAfterIndexing(rows, els[..|els| - 1], project, fileName, now);
      var e := els[|els| - 1];
      if DeclaresUrn(e) then Upsert(before, e.attrs["corresp"], project, fileName, now) else before
  }

  /** The rows the second loop of `index_file` appends. */
  function ReferencesFromIndexing(els: seq<IndexedElement>, project: string, fileName: string, now: int): seq<ReferenceRow>
  {
    if |els| == 0 then []
    else
      var e := els[|els| - 1];
      ReferencesFromIndexing(els[..|els| - 1], project, fileName, now) +
        (if HasTarget(e) then ReferenceRowsFor(project, fileName, e, now) else [])
  }

  /** The number `index_file` reports: one per URN-declaring corresp and one
      per element that has a target attribute (not one per token). */
  function IndexCount(els: seq<IndexedElement>): nat
  {
    Seqs.Count(els, DeclaresUrn) + Seqs.Count(els, HasTarget)
  }

  predicate OfFile(fileName: string, project: string, row: MappingRow)
  {
    row.fileName == fileName && row.project == project
  }

  predicate RefOfFile(fileName: string, project: string, row: ReferenceRow)
  {
    row.reference.fileName == fileName && row.reference.project == project
  }

  /** The rows a DELETE removes: those of one file of the project, or (file
      None) all rows of the project. */
  predicate InScope(fileName: Option<string>, project: string, rowFile: string, rowProject: string)
  {
    rowProject == project && (fileName.None? || rowFile == fileName.value)
  }

  function DropMapping(fileName: Option<string>, project: string): MappingRow -> bool
  {
    (row: MappingRow) => InScope(fileName, project, row.fileName, row.project)
  }

  function KeepMapping(fileName: Option<string>, project: string): MappingRow -> bool
  {
    (row: MappingRow) => !InScope(fileName, project, row.fileName, row.project)
  }

  function DropReference(fileName: Option<string>, project: string): ReferenceRow -> bool
  {
    (row: ReferenceRow) => InScope(fileName, project, row.reference.fileName, row.reference.project)
  }

  function KeepReference(fileName: Option<string>, project: string): ReferenceRow -> bool
  {
    (row: ReferenceRow) => !InScope(fileName, project, row.reference.fileName, row.reference.project)
  }

  lemma FilterKeysDistinct(rows: seq<MappingRow>, keep: MappingRow -> bool)
    requires KeysDistinct(rows)
    ensures KeysDistinct(Seqs.Filter(rows, keep))
    decreases |rows|
  {
    if |rows| > 0 {
      FilterKeysDistinct(rows[1..], keep);
      var t := Seqs.Filter(rows[1..], keep);
      if keep(rows[0]) {
        forall j | 0 <= j < |t| ensures (t[j].urn, t[j].project) != (rows[0].urn, rows[0].project) {
          assert t[j] in rows[1..];
          var k :| 0 <= k < |rows[1..]| && rows[1..][k] == t[j];
          assert rows[k + 1] == t[j];
        }
      }
    }
  }

  /** IDs are looked up with a leading '#', added when missing. */
  function IdWithHash(id: string): string
  {
    if PyStr.StartsWith(id, "#") then id else "#" + id
  }

  predicate PathsDistinct(r: seq<Reference>)
  {
    forall i, j :: 0 <= i < j < |r| ==> r[i].elementPath != r[j].elementPath
  }

  function PathsOf(rows: seq<Reference>): set<string>
  {
    set x | x in rows :: x.elementPath
  }

  /** The first row with the given element path, if any. */
  function FirstWithPath(rows: seq<Reference>, path: string): Option<Reference>
  {
    if |rows| == 0 then None
    else if rows[0].elementPath == path then Some(rows[0])
    else FirstWithPath(rows[1..], path)
  }

  /** Walk the rows, dropping any whose element path was already taken: the
      result keeps its input's order, and the row it keeps for a path is the
      first row of the input with that path. */
  function DedupByPath(rows: seq<Reference>, seen: set<string>): (r: seq<Reference>)
    ensures PathsDistinct(r)
    ensures forall x :: x in r ==> x in rows && x.elementPath !in seen
    ensures Seqs.Subsequence(r, rows)
    ensures forall x :: x in r ==> FirstWithPath(rows, x.elementPath) == Some(x)
    decreases |rows|
  {
    if |rows| == 0 then []
    else if rows[0].elementPath in seen then
      var t := DedupByPath(rows[1..], seen);
      assert forall x :: x in t ==> x in rows;
      assert Seqs.Subsequence(t, rows) by {
        if |t| > 0 {
          assert Seqs.Subsequence(t, rows[1..]);
        }
      }
      t
    else
      var t := DedupByPath(rows[1..], seen + {rows[0].elementPath});
      assert forall x :: x in t ==> x in rows;
      var r := [rows[0]] + t;
      assert r[0] == rows[0] && r[1..] == t;
      r
  }

  /** Deduplication loses no element path: every path of the input that was
      not already seen is the path of some kept row. */
  lemma {:induction false} DedupByPathCovers(rows: seq<Reference>, seen: set<string>)
    ensures PathsOf(DedupByPath(rows, seen)) == PathsOf(rows) - seen
    decreases |rows|
  {
    if |rows| > 0 {
      var x := rows[0];
      assert PathsOf(rows) == {x.elementPath} + PathsOf(rows[1..]) by {
        assert forall y :: y in rows <==> y == x || y in rows[1..];
      }
      if x.elementPath in seen {
        DedupByPathCovers(rows[1..], seen);
      } else {
        DedupByPathCovers(rows[1..], seen + {x.elementPath});
        var t := DedupByPath(rows[1..], seen + {x.elementPath});
        assert PathsOf([x] + t) == {x.elementPath} + PathsOf(t) by {
          assert forall y :: y in [x] + t <==> y == x || y in t;
        }
      }
    }
  }

  function ReferencesOf(rows: seq<ReferenceRow>): (r: seq<Reference>)
    ensures |r| == |rows| && forall i :: 0 <= i < |rows| ==> r[i] == rows[i].reference
  {
    if |rows| == 0 then [] else [rows[0].reference] + ReferencesOf(rows[1..])
  }

  /** The `by_urn` query: rows whose target_start is the urn, if it is truthy. */
  function ByUrn(rows: seq<Reference>, urn: Option<string>): seq<Reference>
  {
    if Truthy(urn) then Seqs.Filter(rows, (r: Reference) => r.targetStart == urn.value) else []
  }

  /** The `by_id` query: only when id, project and file name are all truthy. */
  function ById(rows: seq<Reference>, id: Option<string>, project: Option<string>, fileName: Option<string>): seq<Reference>
  {
    if Truthy(id) && Truthy(project) && Truthy(fileName) then
      Seqs.Filter(rows, (r: Reference) =>
        r.targetStart == IdWithHash(id.value) && r.targetIsId && r.project == project.value && r.fileName == fileName.value)
    else []
  }

  /** Outcome of `sync_file`. */
  datatype SyncAction = Added | Updated | Removed | Skipped

  /** A file on disk: its modification time and its parse (None when lxml
      cannot parse it). */
  datatype DiskFile = DiskFile(mtime: int, doc: Option<seq<IndexedElement>>)

  /** What a path names on disk. A directory maps the names of its entries
      to files. */
  datatype DirEntry = Missing | NotADirectory | Directory(files: map<string, DiskFile>)

  predicate IsXmlName(name: string)
  {
    |name| >= 4 && name[|name| - 4..] == ".xml"
  }

  /** `glob('*.xml')` as a set of names. */
  function XmlNames(files: map<string, DiskFile>): set<string>
  {
    set f | f in files && IsXmlName(f)
  }

  /** Totals returned by `sync_project`. */
  datatype ProjectReport = ProjectReport(projectRemoved: bool, added: int, updated: int, removed: int, skipped: int)

  /** Totals returned by `sync_projects`. */
  datatype ProjectsReport = ProjectsReport(added: int, updated: int, removed: int, skipped: int,
                                           projects: map<string, ProjectReport>, orphanedProjectsRemoved: nat)

  function ProjectPath(projectDirectory: string, project: string): string
  {
    projectDirectory + "/" + project
  }

  /** The files of a project that the database knows, as `sync_project`
      computes them: from the URN mappings only. */
  function StoredFilesAsWritten(mappings: seq<MappingRow>, project: string): set<string>
  {
    set i | 0 <= i < |mappings| && mappings[i].project == project :: mappings[i].fileName
  }

  /** The files of a project that have rows in either table. */
  function StoredFiles(mappings: seq<MappingRow>, references: seq<ReferenceRow>, project: string): set<string>
  {
    StoredFilesAsWritten(mappings, project) +
      set i | 0 <= i < |references| && references[i].reference.project == project :: references[i].reference.fileName
  }

  /** The projects the database knows, as `sync_projects` computes them:
      from the URN mappings only. */
  function StoredProjectsAsWritten(mappings: seq<MappingRow>): set<string>
  {
    set i | 0 <= i < |mappings| :: mappings[i].project
  }

  /** The projects that have rows in either table. */
  function StoredProjects(mappings: seq<MappingRow>, references: seq<ReferenceRow>): (r: set<string>)
    ensures ProjectsIn(mappings, references, r)
  {
    var r := StoredProjectsAsWritten(mappings) + set i | 0 <= i < |references| :: references[i].reference.project;
    assert forall x :: x in mappings ==> x.project in r by {
      forall x | x in mappings ensures x.project in r {
        var i :| 0 <= i < |mappings| && mappings[i] == x;
      }
    }
    assert forall x :: x in references ==> x.reference.project in r by {
      forall x | x in references ensures x.reference.project in r {
        var i :| 0 <= i < |references| && references[i] == x;
      }
    }
    r
  }

  /** A file whose only rows are references is not seen as orphaned by
      `sync_project` once it is deleted from disk, so its references stay. */
  lemma ReferenceOnlyFileIsNotOrphaned()
    ensures
      var row := ReferenceRow(Reference("/TEI/ptr", "ptr", None, "#x", Some("#x"), true, None, "p", "a.xml"), 0);
      && StoredFilesAsWritten([], "p") - {} == {}
      && StoredFiles([], [row], "p") - {} == {"a.xml"}
  {
    var row := ReferenceRow(Reference("/TEI/ptr", "ptr", None, "#x", Some("#x"), true, None, "p", "a.xml"), 0);
    assert row.reference.fileName in StoredFiles([], [row], "p") by {
      assert [row][0] == row;
    }
  }

  /** Likewise a project whose only rows are references is not seen as
      orphaned by `sync_projects` once its directory is deleted. */
  lemma ReferenceOnlyProjectIsNotOrphaned()
    ensures
      var row := ReferenceRow(Reference("/TEI/ptr", "ptr", None, "#x", Some("#x"), true, None, "p", "a.xml"), 0);
      && StoredProjectsAsWritten([]) - {} == {}
      && StoredProjects([], [row]) - {} == {"p"}
  {
    var row := ReferenceRow(Reference("/TEI/ptr", "ptr", None, "#x", Some("#x"), true, None, "p", "a.xml"), 0);
    assert row.reference.project in StoredProjects([], [row]) by {
      assert [row][0] == row;
    }
  }

  /** Every row of `project` names a file in `disk`. */
  ghost predicate FilesOnDisk(mappings: seq<MappingRow>, references: seq<ReferenceRow>, project: string, disk: set<string>)
  {
    && (forall x :: x in mappings && x.project == project ==> x.fileName in disk)
    && (forall x :: x in references && x.reference.project == project ==> x.reference.fileName in disk)
  }

  /** The rows of projects other than `project` are the same before and after. */
  ghost predicate OthersUnchanged(m0: seq<MappingRow>, r0: seq<ReferenceRow>, m1: seq<MappingRow>, r1: seq<ReferenceRow>, project: string)
  {
    && (forall x: MappingRow :: x.project != project ==> (x in m1 <==> x in m0))
    && (forall x: ReferenceRow :: x.reference.project != project ==> (x in r1 <==> x in r0))
  }

  /** What indexing or removing one file may change: new rows belong to
      that file, mapping rows of other projects stay (a mapping of another
      file of the same project may be taken over when the file redeclares
      its URN), and reference rows of other files stay. */
  ghost predicate ChangedOnlyFile(m0: seq<MappingRow>, r0: seq<ReferenceRow>, m1: seq<MappingRow>, r1: seq<ReferenceRow>, fileName: string, project: string)
  {
    && (forall x :: x in m1 ==> x in m0 || (x.project == project && x.fileName == fileName))
    && (forall x :: x in r1 ==> x in r0 || (x.reference.project == project && x.reference.fileName == fileName))
    && (forall x :: x in m0 && x.project != project ==> x in m1)
    && (forall x :: x in r0 && !(x.reference.project == project && x.reference.fileName == fileName) ==> x in r1)
  }

  /** The names of the base directory's entries that are directories. */
  function DiskProjects(dirs: map<string, DirEntry>): set<string>
  {
    set p | p in dirs && dirs[p].Directory?
  }

  /** Every row belongs to a project directory and names one of its `*.xml`
      files. */
  ghost predicate AllOnDisk(mappings: seq<MappingRow>, references: seq<ReferenceRow>, dirs: map<string, DirEntry>)
  {
    && (forall x :: x in mappings ==>
         x.project in DiskProjects(dirs) && x.fileName in XmlNames(dirs[x.project].files))
    && (forall x :: x in references ==>
         x.reference.project in DiskProjects(dirs) && x.reference.fileName in XmlNames(dirs[x.reference.project].files))
  }

  lemma AllOnDiskFromProjects(mappings: seq<MappingRow>, references: seq<ReferenceRow>, dirs: map<string, DirEntry>)
    requires ProjectsIn(mappings, references, DiskProjects(dirs))
    requires forall q :: q in DiskProjects(dirs) ==> FilesOnDisk(mappings, references, q, XmlNames(dirs[q].files))
    ensures AllOnDisk(mappings, references, dirs)
  {
    forall x | x in mappings
      ensures x.project in DiskProjects(dirs) && x.fileName in XmlNames(dirs[x.project].files)
    {
      assert FilesOnDisk(mappings, references, x.project, XmlNames(dirs[x.project].files));
    }
    forall x | x in references
      ensures x.reference.project in DiskProjects(dirs) && x.reference.fileName in XmlNames(dirs[x.reference.project].files)
    {
      assert FilesOnDisk(mappings, references, x.reference.project, XmlNames(dirs[x.reference.project].files));
    }
  }

  /** Every row belongs to one of `projects`. */
  ghost predicate ProjectsIn(mappings: seq<MappingRow>, references: seq<ReferenceRow>, projects: set<string>)
  {
    && (forall x :: x in mappings ==> x.project in projects)
    && (forall x :: x in references ==> x.reference.project in projects)
  }

  lemma OtherFilesStayOnDisk(m0: seq<MappingRow>, r0: seq<ReferenceRow>, m1: seq<MappingRow>, r1: seq<ReferenceRow>, p: string, q: string, disk: set<string>)
    requires OthersUnchanged(m0, r0, m1, r1, p) && FilesOnDisk(m0, r0, q, disk) && q != p
    ensures FilesOnDisk(m1, r1, q, disk)
  {
  }

  lemma SyncKeepsProjectsIn(m0: seq<MappingRow>, r0: seq<ReferenceRow>, m1: seq<MappingRow>, r1: seq<ReferenceRow>, p: string, projects: set<string>)
    requires OthersUnchanged(m0, r0, m1, r1, p) && ProjectsIn(m0, r0, projects) && p in projects
    ensures ProjectsIn(m1, r1, projects)
  {
  }

  predicate HasKey(rows: seq<MappingRow>, urn: string, project: string)
  {
    exists i :: 0 <= i < |rows| && rows[i].urn == urn && rows[i].project == project
  }

  /** Indexing a file adds only rows of that file, keeps every row whose key
      it does not declare, loses no key, and afterwards every URN the file
      declares is a key of the table. */
  lemma {:induction false} MappingsAfterIndexingFacts(rows: seq<MappingRow>, els: seq<IndexedElement>, project: string, fileName: string, now: int)
    requires KeysDistinct(rows)
    ensures var r := MappingsAfterIndexing(rows, els, project, fileName, now);
      && (forall x :: x in r ==> x in rows || (x.project == project && x.fileName == fileName))
      && (forall x :: x in rows && x.project != project ==> x in r)
      && (forall u, q :: HasKey(rows, u, q) ==> HasKey(r, u, q))
      && (forall e :: e in els && DeclaresUrn(e) ==> HasKey(r, e.attrs["corresp"], project))
  {
    if |els| > 0 {
      var init := els[..|els| - 1];
      var e := els[|els| - 1];
      MappingsAfterIndexingFacts(rows, init, project, fileName, now);
      var before := MappingsAfterIndexing(rows, init, project, fileName, now);
      assert forall x :: x in els <==> x in init || x == e by {
        assert els == init + [e];
      }
      if DeclaresUrn(e) {
        var u := e.attrs["corresp"];
        var r := Upsert(before, u, project, fileName, now);
        UpsertKeepsKeys(before, u, project, fileName, now);
        forall x | x in before && x.project != project ensures x in r {
          var i :| 0 <= i < |before| && before[i] == x;
        }
      }
    }
  }

  lemma UpsertKeepsKeys(rows: seq<MappingRow>, urn: string, project: string, fileName: string, now: int)
    requires KeysDistinct(rows)
    ensures var r := Upsert(rows, urn, project, fileName, now);
      && HasKey(r, urn, project)
      && forall u, q :: HasKey(rows, u, q) ==> HasKey(r, u, q)
  {
    var r := Upsert(rows, urn, project, fileName, now);
    var row := MappingRow(urn, project, fileName, now);
    var k :| 0 <= k < |r| && r[k] == row;
    forall u, q | HasKey(rows, u, q) ensures HasKey(r, u, q) {
      var i :| 0 <= i < |rows| && rows[i].urn == u && rows[i].project == q;
      if (u, q) == (urn, project) {
        assert r[k].urn == u && r[k].project == q;
      } else {
        assert rows[i] in r;
        var j :| 0 <= j < |r| && r[j] == rows[i];
      }
    }
  }

  /** Every reference row indexing a file produces belongs to that file. */
  lemma {:induction false} ReferencesFromIndexingOfFile(els: seq<IndexedElement>, project: string, fileName: string, now: int)
    ensures forall x :: x in ReferencesFromIndexing(els, project, fileName, now) ==>
      x.reference.project == project && x.reference.fileName == fileName
  {
    if |els| > 0 {
      ReferencesFromIndexingOfFile(els[..|els| - 1], project, fileName, now);
      ReferenceRowsForOfFile(project, fileName, els[|els| - 1], now);
    }
  }

  /** Both tables as one value. */
  datatype Tables = Tables(mappings: seq<MappingRow>, references: seq<ReferenceRow>)

  /** The newest timestamp among a file's rows in either table (the `UNION
      ALL` of the two `MAX(updated_at)` queries), or None when it has none. */
  function LastUpdated(t: Tables, fileName: string, project: string): (r: Option<int>)
    ensures r.None? <==> (forall i :: 0 <= i < |t.mappings| ==> !OfFile(fileName, project, t.mappings[i])) &&
                          (forall i :: 0 <= i < |t.references| ==> !RefOfFile(fileName, project, t.references[i]))
    ensures r.Some? ==> forall i :: 0 <= i < |t.mappings| && OfFile(fileName, project, t.mappings[i]) ==> t.mappings[i].updatedAt <= r.value
    ensures r.Some? ==> forall i :: 0 <= i < |t.references| && RefOfFile(fileName, project, t.references[i]) ==> t.references[i].updatedAt <= r.value
    ensures r.Some? ==>
      || (exists i :: 0 <= i < |t.mappings| && OfFile(fileName, project, t.mappings[i]) && t.mappings[i].updatedAt == r.value)
      || (exists i :: 0 <= i < |t.references| && RefOfFile(fileName, project, t.references[i]) && t.references[i].updatedAt == r.value)
  {
    var a := MappingTimes(t.mappings, fileName, project);
    var b := ReferenceTimes(t.references, fileName, project);
    assert forall x :: x in a + b <==> x in a || x in b;
    assert forall i :: 0 <= i < |t.mappings| && OfFile(fileName, project, t.mappings[i]) ==> t.mappings[i].updatedAt in a;
    assert forall i :: 0 <= i < |t.references| && RefOfFile(fileName, project, t.references[i]) ==> t.references[i].updatedAt in b;
    Seqs.MaxOpt(a + b)
  }

  /** The tables after `index_file` has read `doc`; a file that does not
      parse changes nothing. */
  function IndexedTables(t: Tables, doc: Option<seq<IndexedElement>>, project: string, fileName: string, now: int): Tables
  {
    match doc
    case None => t
    case Some(els) =>
      Tables(MappingsAfterIndexing(t.mappings, els, project, fileName, now),
             t.references + ReferencesFromIndexing(els, project, fileName, now))
  }

  /** What `index_file` returns for `doc`. */
  function DocCount(doc: Option<seq<IndexedElement>>): nat
  {
    match doc
    case None => 0
    case Some(els) => IndexCount(els)
  }

  /** The tables after the DELETEs of `remove_file` (a file name) or
      `remove_project` (None). */
  function Without(t: Tables, fileName: Option<string>, project: string): Tables
  {
    Tables(Seqs.Filter(t.mappings, KeepMapping(fileName, project)),
           Seqs.Filter(t.references, KeepReference(fileName, project)))
  }

  /** The number of rows those DELETEs remove. */
  function RemovedRows(t: Tables, fileName: Option<string>, project: string): nat
  {
    Seqs.Count(t.mappings, DropMapping(fileName, project)) + Seqs.Count(t.references, DropReference(fileName, project))
  }

  /** A `*.xml` entry of a directory as `index_file` reads it. */
  function FileDoc(files: map<string, DiskFile>, name: string): Option<seq<IndexedElement>>
  {
    if name in files then files[name].doc else None
  }

  /** The tables after `index_project` has indexed the files in `order`,
      the order in which its loop visits them. */
  function IndexFiles(t: Tables, files: map<string, DiskFile>, order: seq<string>, project: string, now: int): Tables
  {
    if |order| == 0 then t
    else
      var f := order[|order| - 1];
      IndexedTables(IndexFiles(t, files, order[..|order| - 1], project, now), FileDoc(files, f), project, f, now)
  }

  /** The sum of the counts `index_file` returns for the files in `order`. */
  function IndexTotal(files: map<string, DiskFile>, order: seq<string>): nat
  {
    if |order| == 0 then 0
    else IndexTotal(files, order[..|order| - 1]) + DocCount(FileDoc(files, order[|order| - 1]))
  }

  /** The new tables and the result of one `sync_file` call. */
  datatype SyncStep = SyncStep(tables: Tables, action: SyncAction, count: int)

  /** What `sync_file` does: a file missing from the directory is removed;
      a file with no stored timestamp is indexed; one modified after its
      newest stored timestamp is removed and indexed again; any other file
      is left alone. */
  function SyncFileStep(t: Tables, fileName: string, project: string, files: map<string, DiskFile>, now: int): SyncStep
  {
    if fileName !in files then
      SyncStep(Without(t, Some(fileName), project), Removed, RemovedRows(t, Some(fileName), project))
    else
      var doc := files[fileName].doc;
      match LastUpdated(t, fileName, project)
      case None => SyncStep(IndexedTables(t, doc, project, fileName, now), Added, DocCount(doc))
      case Some(last) =>
        if files[fileName].mtime > last then
          SyncStep(IndexedTables(Without(t, Some(fileName), project), doc, project, fileName, now), Updated, DocCount(doc))
        else SyncStep(t, Skipped, 0)
  }

  /** The tables and the three sums after the second loop of
      `sync_project` has synced the files in `order`. */
  datatype SyncRun = SyncRun(tables: Tables, added: int, updated: int, skipped: int)

  function SyncFiles(t: Tables, files: map<string, DiskFile>, order: seq<string>, project: string, now: int): SyncRun
  {
    if |order| == 0 then SyncRun(t, 0, 0, 0)
    else
      var run := SyncFiles(t, files, order[..|order| - 1], project, now);
      var step := SyncFileStep(run.tables, order[|order| - 1], project, files, now);
      SyncRun(step.tables,
        run.added + (if step.action == Added then step.count else 0),
        run.updated + (if step.action == Updated then step.count else 0),
        run.skipped + (if step.action == Skipped then 1 else 0))
  }

  /** Syncing one more file continues the run with that file's step. */
  lemma SyncFilesAppend(t: Tables, files: map<string, DiskFile>, order: seq<string>, f: string, project: string, now: int)
    ensures var run := SyncFiles(t, files, order, project, now);
      var step := SyncFileStep(run.tables, f, project, files, now);
      SyncFiles(t, files, order + [f], project, now) ==
        SyncRun(step.tables,
          run.added + (if step.action == Added then step.count else 0),
          run.updated + (if step.action == Updated then step.count else 0),
          run.skipped + (if step.action == Skipped then 1 else 0))
  {
    assert (order + [f])[..|order|] == order;
  }

  /** The tables and report `sync_project` leaves: without a project
      directory the project's rows are deleted and counted as removed;
      otherwise the rows of the orphaned files, those known to either table
      but not on disk, are deleted and counted, and the `*.xml` files are
      synced in `order`. */
  ghost predicate ProjectSynced(t0: Tables, t1: Tables, report: ProjectReport, order: seq<string>, project: string, entry: DirEntry, now: int)
  {
    if !entry.Directory? then
      && t1 == Without(t0, None, project)
      && report == ProjectReport(true, 0, 0, RemovedRows(t0, None, project), 0)
    else
      var orphans := StoredFiles(t0.mappings, t0.references, project) - XmlNames(entry.files);
      var run := SyncFiles(WithoutFiles(t0, orphans, project), entry.files, order, project, now);
      && Seqs.Enumerates(order, XmlNames(entry.files))
      && t1 == run.tables
      && report == ProjectReport(false, run.added, run.updated, RemovedFileRows(t0, orphans, project), run.skipped)
  }

  /** The rows of some files of one project. */
  predicate InFiles(names: set<string>, project: string, rowFile: string, rowProject: string)
  {
    rowProject == project && rowFile in names
  }

  function KeepFiles(names: set<string>, project: string): MappingRow -> bool
  {
    (row: MappingRow) => !InFiles(names, project, row.fileName, row.project)
  }

  function DropFiles(names: set<string>, project: string): MappingRow -> bool
  {
    (row: MappingRow) => InFiles(names, project, row.fileName, row.project)
  }

  function KeepFileReferences(names: set<string>, project: string): ReferenceRow -> bool
  {
    (row: ReferenceRow) => !InFiles(names, project, row.reference.fileName, row.reference.project)
  }

  function DropFileReferences(names: set<string>, project: string): ReferenceRow -> bool
  {
    (row: ReferenceRow) => InFiles(names, project, row.reference.fileName, row.reference.project)
  }

  /** The tables after `remove_file` of each of `names`. */
  function WithoutFiles(t: Tables, names: set<string>, project: string): Tables
  {
    Tables(Seqs.Filter(t.mappings, KeepFiles(names, project)),
           Seqs.Filter(t.references, KeepFileReferences(names, project)))
  }

  /** The number of rows those calls remove. */
  function RemovedFileRows(t: Tables, names: set<string>, project: string): nat
  {
    Seqs.Count(t.mappings, DropFiles(names, project)) + Seqs.Count(t.references, DropFileReferences(names, project))
  }

  function KeepProjects(projects: set<string>): MappingRow -> bool
  {
    (row: MappingRow) => row.project !in projects
  }

  function DropProjects(projects: set<string>): MappingRow -> bool
  {
    (row: MappingRow) => row.project in projects
  }

  function KeepProjectReferences(projects: set<string>): ReferenceRow -> bool
  {
    (row: ReferenceRow) => row.reference.project !in projects
  }

  function DropProjectReferences(projects: set<string>): ReferenceRow -> bool
  {
    (row: ReferenceRow) => row.reference.project in projects
  }

  /** The tables after `remove_project` of each of `projects`. */
  function WithoutProjects(t: Tables, projects: set<string>): Tables
  {
    Tables(Seqs.Filter(t.mappings, KeepProjects(projects)),
           Seqs.Filter(t.references, KeepProjectReferences(projects)))
  }

  /** The number of rows those calls remove. */
  function RemovedProjectRows(t: Tables, projects: set<string>): nat
  {
    Seqs.Count(t.mappings, DropProjects(projects)) + Seqs.Count(t.references, DropProjectReferences(projects))
  }

  /** The four totals of `sync_projects`. */
  datatype Totals = Totals(added: int, updated: int, removed: int, skipped: int)

  /** The sums of the per-project counts over the projects in `order`. */
  function SumReports(reports: map<string, ProjectReport>, order: seq<string>): Totals
  {
    if |order| == 0 then Totals(0, 0, 0, 0)
    else
      var s := SumReports(reports, order[..|order| - 1]);
      var p := order[|order| - 1];
      if p in reports then
        Totals(s.added + reports[p].added, s.updated + reports[p].updated,
               s.removed + reports[p].removed, s.skipped + reports[p].skipped)
      else s
  }

  /** Adding the report of a project not in `order` does not change the sums
      over `order`. */
  lemma {:induction false} SumReportsFrame(reports: map<string, ProjectReport>, order: seq<string>, p: string, x: ProjectReport)
    requires p !in order
    ensures SumReports(reports[p := x], order) == SumReports(reports, order)
  {
    if |order| > 0 {
      assert order[|order| - 1] in order;
      assert forall y :: y in order[..|order| - 1] ==> y in order;
      SumReportsFrame(reports, order[..|order| - 1], p, x);
    }
  }

  /** Once the files the database knows but `disk` lacks are removed,
      every row of the project names a file in `disk`, and rows of other
      projects are as before. */
  lemma OrphansRemovedLeaveDisk(t: Tables, project: string, disk: set<string>)
    ensures var w := WithoutFiles(t, StoredFiles(t.mappings, t.references, project) - disk, project);
      && FilesOnDisk(w.mappings, w.references, project, disk)
      && OthersUnchanged(t.mappings, t.references, w.mappings, w.references, project)
  {
    var orphans := StoredFiles(t.mappings, t.references, project) - disk;
    var w := WithoutFiles(t, orphans, project);
    forall x | x in w.mappings && x.project == project ensures x.fileName in disk {
      var i :| 0 <= i < |t.mappings| && t.mappings[i] == x;
      assert x.fileName in StoredFilesAsWritten(t.mappings, project);
    }
    forall x | x in w.references && x.reference.project == project ensures x.reference.fileName in disk {
      var i :| 0 <= i < |t.references| && t.references[i] == x;
      assert x.reference.fileName in StoredFiles(t.mappings, t.references, project);
    }
  }

  /** Adding the report of a project not yet summed adds its counts. */
  lemma SumReportsAppend(reports: map<string, ProjectReport>, order: seq<string>, p: string, x: ProjectReport)
    requires p !in order
    ensures var s := SumReports(reports, order);
      SumReports(reports[p := x], order + [p]) ==
        Totals(s.added + x.added, s.updated + x.updated, s.removed + x.removed, s.skipped + x.skipped)
  {
    assert (order + [p])[..|order|] == order;
    SumReportsFrame(reports, order, p, x);
  }

  /** The second loop of `sync_projects` as a chain of tables: `states[k]`
      are the tables before the `k`-th project of `order` is synced, and
      `sync_project` of that project, visiting its files in `inner`, leads
      to `states[k + 1]` with the report kept in `reports`. */
  ghost predicate ProjectsChain(states: seq<Tables>, reports: map<string, ProjectReport>, inner: map<string, seq<string>>,
                                order: seq<string>, dirs: map<string, DirEntry>, now: int)
  {
    && |states| == |order| + 1
    && forall k :: 0 <= k < |order| ==> StepSynced(states, reports, inner, order, dirs, now, k)
  }

  /** Step `k` of that chain. */
  ghost predicate StepSynced(states: seq<Tables>, reports: map<string, ProjectReport>, inner: map<string, seq<string>>,
                             order: seq<string>, dirs: map<string, DirEntry>, now: int, k: int)
    requires 0 <= k < |order| && |states| == |order| + 1
  {
    && order[k] in reports && order[k] in inner && order[k] in dirs
    && ProjectSynced(states[k], states[k + 1], reports[order[k]], inner[order[k]], order[k], dirs[order[k]], now)
  }

  /** Syncing one more project, not synced before, extends the chain. */
  lemma ProjectsChainAppend(states: seq<Tables>, reports: map<string, ProjectReport>, inner: map<string, seq<string>>,
                            order: seq<string>, dirs: map<string, DirEntry>, now: int,
                            p: string, t: Tables, x: ProjectReport, io: seq<string>)
    requires ProjectsChain(states, reports, inner, order, dirs, now)
    requires p !in order && p in dirs
    requires ProjectSynced(states[|order|], t, x, io, p, dirs[p], now)
    ensures ProjectsChain(states + [t], reports[p := x], inner[p := io], order + [p], dirs, now)
  {
    var states', reports', inner', order' := states + [t], reports[p := x], inner[p := io], order + [p];
    forall k | 0 <= k < |order'|
      ensures StepSynced(states', reports', inner', order', dirs, now, k)
    {
      if k < |order| {
        var q := order[k];
        assert StepSynced(states, reports, inner, order, dirs, now, k);
        assert q in order;
        assert order'[k] == q && reports'[q] == reports[q] && inner'[q] == inner[q];
        assert states'[k] == states[k] && states'[k + 1] == states[k + 1];
      } else {
        assert order'[k] == p && states'[k] == states[|order|] && states'[k + 1] == t;
      }
    }
  }

  /** The ghost state of the second loop of `sync_projects` with the
      projects `todo` still to sync: `results`, `order`, `states` and
      `inner` describe the projects done, starting from the tables `t0`, and
      `totals` sums their counts. */
  ghost predicate ProjectsDone(dirs: map<string, DirEntry>, now: int, t0: Tables, todo: set<string>,
                               results: map<string, ProjectReport>, order: seq<string>, states: seq<Tables>,
                               inner: map<string, seq<string>>, totals: Totals)
  {
    && todo <= DiskProjects(dirs)
    && results.Keys == DiskProjects(dirs) - todo
    && Seqs.Enumerates(order, DiskProjects(dirs) - todo)
    && ProjectsChain(states, results, inner, order, dirs, now)
    && states[0] == t0
    && SumReports(results, order) == totals
  }

  /** Syncing one more project `p` of `todo`, from the last tables of the
      chain to `t` with report `x`, extends that state by it. */
  lemma ProjectsTurn(dirs: map<string, DirEntry>, now: int, t0: Tables, todo: set<string>,
                     results: map<string, ProjectReport>, order: seq<string>, states: seq<Tables>,
                     inner: map<string, seq<string>>, totals: Totals,
                     p: string, t: Tables, x: ProjectReport, io: seq<string>)
    requires ProjectsDone(dirs, now, t0, todo, results, order, states, inner, totals) && p in todo
    requires ProjectSynced(states[|order|], t, x, io, p, dirs[p], now)
    ensures ProjectsDone(dirs, now, t0, todo - {p}, results[p := x], order + [p], states + [t], inner[p := io],
                         Totals(totals.added + x.added, totals.updated + x.updated,
                                totals.removed + x.removed, totals.skipped + x.skipped))
  {
    var done := DiskProjects(dirs) - todo;
    assert DiskProjects(dirs) - (todo - {p}) == done + {p};
    assert Seqs.Enumerates(order + [p], done + {p});
    ProjectsChainAppend(states, results, inner, order, dirs, now, p, t, x, io);
    SumReportsAppend(results, order, p, x);
  }

  class ReferenceDatabase {
    var urnMappings: seq<MappingRow>
    var references: seq<ReferenceRow>

    ghost predicate Valid()
      reads this
    {
      KeysDistinct(urnMappings)
    }

    constructor ()
      ensures Valid() && urnMappings == [] && references == []
    {
      urnMappings := [];
      references := [];
    }

    /** `get_urn_mappings`: each stored row that the truthiness-selected WHERE
        clause admits, and no other. */
    function GetUrnMappings(urn: Option<string>, project: Option<string>): (r: seq<UrnMapping>)
      reads this
      ensures forall m :: m in r <==>
        (exists i :: 0 <= i < |urnMappings| && MappingMatches(urnMappings[i], urn, project) && m == ToMapping(urnMappings[i]))
    {
      SelectMappings(urnMappings, MatchMapping(urn, project))
    }

    /** `get_urns_by_project`: the mappings whose project is exactly `project`. */
    function GetUrnsByProject(project: string): (r: seq<UrnMapping>)
      reads this
      ensures forall m :: m in r <==>
        (exists i :: 0 <= i < |urnMappings| && urnMappings[i].project == project && m == ToMapping(urnMappings[i]))
    {
      SelectMappings(urnMappings, DropMapping(None, project))
    }

    /** `get_files_by_project`: the distinct file names of the project's
        mappings, ascending. */
    function GetFilesByProject(project: string): (r: seq<string>)
      reads this
      ensures Ordering.StrictlySorted(r)
      ensures forall f :: f in r <==> exists i :: 0 <= i < |urnMappings| && urnMappings[i].project == project && urnMappings[i].fileName == f
    {
      Ordering.SortedDistinct(FileNamesOf(urnMappings, project))
    }

    /** `list_projects`: the distinct projects of all mappings, ascending. */
    function ListProjects(): (r: seq<string>)
      reads this
      ensures Ordering.StrictlySorted(r)
      ensures forall p :: p in r <==> exists i :: 0 <= i < |urnMappings| && urnMappings[i].project == p
    {
      Ordering.SortedDistinct(ProjectsOf(urnMappings))
    }

    /** `get_references_to`: URN hits first, then ID hits, keeping only the
        first row for each element path: the result is in the order of the
        hits, has one row per path that any hit has, and that row is the
        first hit with the path. */
    function GetReferencesTo(urn: Option<string>, id: Option<string>, project: Option<string>, fileName: Option<string>): (r: seq<Reference>)
      reads this
      ensures PathsDistinct(r)
      ensures forall x :: x in r ==> x in ByUrn(ReferencesOf(references), urn) + ById(ReferencesOf(references), id, project, fileName)
      ensures PathsOf(r) == PathsOf(ByUrn(ReferencesOf(references), urn) + ById(ReferencesOf(references), id, project, fileName))
      ensures Seqs.Subsequence(r, ByUrn(ReferencesOf(references), urn) + ById(ReferencesOf(references), id, project, fileName))
      ensures forall x :: x in r ==>
        FirstWithPath(ByUrn(ReferencesOf(references), urn) + ById(ReferencesOf(references), id, project, fileName), x.elementPath) == Some(x)
      ensures !Truthy(urn) && !(Truthy(id) && Truthy(project) && Truthy(fileName)) ==> r == []
    {
      var both := ByUrn(ReferencesOf(references), urn) + ById(ReferencesOf(references), id, project, fileName);
      DedupByPathCovers(both, {});
      DedupByPath(both, {})
    }

    /** `_get_file_last_updated` on the stored tables. */
    function FileLastUpdated(fileName: string, project: string): (r: Option<int>)
      reads this
      ensures r == LastUpdated(Tables(urnMappings, references), fileName, project)
    {
      LastUpdated(Tables(urnMappings, references), fileName, project)
    }

    /** `add_urn_mapping` */
    method AddUrnMapping(urn: string, project: string, fileName: string, now: int)
      requires Valid()
      modifies this
      ensures Valid()
      ensures urnMappings == Upsert(old(urnMappings), urn, project, fileName, now)
      ensures references == old(references)
    {
      urnMappings := Upsert(urnMappings, urn, project, fileName, now);
    }

    /** `add_reference`: nothing without a target, else one row per token. */
    method AddReference(project: string, fileName: string, e: IndexedElement, now: int)
      modifies this
      ensures references == old(references) + ReferenceRowsFor(project, fileName, e, now)
      ensures urnMappings == old(urnMappings)
    {
      var target := Attr(e, "target");
      if !Truthy(target) {
        return;
      }
      var tokens := Tokens(target.value);
      var i := 0;
      while i < |tokens|
        invariant 0 <= i <= |tokens|
        invariant references == old(references) + RowsForTokens(project, fileName, e, tokens[..i], now)
        invariant urnMappings == old(urnMappings)
      {
        var token := tokens[i];
        references := references + [ReferenceRow(ReferenceFor(project, fileName, e, token), now)];
        assert tokens[..i + 1][..i] == tokens[..i];
        i := i + 1;
      }
      assert tokens[..i] == tokens;
    }

    /** The first loop of `index_file`: one upsert per URN-declaring element. */
    method IndexUrns(els: seq<IndexedElement>, project: string, fileName: string, now: int) returns (count: int)
      requires Valid()
      modifies this
      ensures Valid()
      ensures urnMappings == MappingsAfterIndexing(old(urnMappings), els, project, fileName, now)
      ensures references == old(references)
      ensures count == Seqs.Count(els, DeclaresUrn)
    {
      count := 0;
      var i := 0;
      while i < |els|
        invariant 0 <= i <= |els| && Valid()
        invariant urnMappings == MappingsAfterIndexing(old(urnMappings), els[..i], project, fileName, now)
        invariant references == old(references)
        invariant count == Seqs.Count(els[..i], DeclaresUrn)
      {
        var e := els[i];
        assert els[..i + 1] == els[..i] + [e];
        assert els[..i + 1][..i] == els[..i];
        Seqs.CountAppend(els[..i], [e], DeclaresUrn);
        var corresp := Attr(e, "corresp");
        if Truthy(corresp) && PyStr.StartsWith(corresp.value, UrnPrefix) {
          AddUrnMapping(corresp.value, project, fileName, now);
          count := count + 1;
        }
        i := i + 1;
      }
      assert els[..i] == els;
    }

    /** The second loop of `index_file`: `add_reference` for each element
        that has a target attribute. */
    method IndexReferences(els: seq<IndexedElement>, project: string, fileName: string, now: int) returns (count: int)
      modifies this
      ensures urnMappings == old(urnMappings)
      ensures references == old(references) + ReferencesFromIndexing(els, project, fileName, now)
      ensures count == Seqs.Count(els, HasTarget)
    {
      count := 0;
      var i := 0;
      while i < |els|
        invariant 0 <= i <= |els|
        invariant urnMappings == old(urnMappings)
        invariant references == old(references) + ReferencesFromIndexing(els[..i], project, fileName, now)
        invariant count == Seqs.Count(els[..i], HasTarget)
      {
        ghost var before := references;
        var added := IndexElementReferences(els, i, project, fileName, now);
        assert references == before + references[|before|..];
        count := count + added;
        i := i + 1;
      }
      assert els[..i] == els;
    }

    /** One step of the second loop of `index_file`, for `els[i]`. */
    method IndexElementReferences(els: seq<IndexedElement>, i: nat, project: string, fileName: string, now: int) returns (added: int)
      requires i < |els|
      modifies this
      ensures urnMappings == old(urnMappings)
      ensures |references| >= |old(references)| && references[..|old(references)|] == old(references)
      ensures ReferencesFromIndexing(els[..i + 1], project, fileName, now) ==
        ReferencesFromIndexing(els[..i], project, fileName, now) + references[|old(references)|..]
      ensures Seqs.Count(els[..i + 1], HasTarget) == Seqs.Count(els[..i], HasTarget) + added
    {
      var e := els[i];
      assert els[..i + 1] == els[..i] + [e];
      Seqs.CountAppend(els[..i], [e], HasTarget);
      assert els[..i + 1][..i] == els[..i];
      if "target" in e.attrs {
        AddReference(project, fileName, e, now);
        added := 1;
      } else {
        added := 0;
      }
    }

    /** `index_file`: 0 and no change when the file does not parse;
        otherwise the URN mappings are upserted, the references appended and
        the count is `IndexCount`. */
    method IndexFile(doc: Option<seq<IndexedElement>>, project: string, fileName: string, now: int) returns (count: int)
      requires Valid()
      modifies this
      ensures Valid()
      ensures doc.None? ==> count == 0 && urnMappings == old(urnMappings) && references == old(references)
      ensures doc.Some? ==> count == IndexCount(doc.value)
      ensures doc.Some? ==> urnMappings == MappingsAfterIndexing(old(urnMappings), doc.value, project, fileName, now)
      ensures doc.Some? ==> references == old(references) + ReferencesFromIndexing(doc.value, project, fileName, now)
    {
      if doc.None? {
        return 0;
      }
      var urns := IndexUrns(doc.value, project, fileName, now);
      var refs := IndexReferences(doc.value, project, fileName, now);
      count := urns + refs;
    }

    /** The DELETE statements shared by `remove_file` and `remove_project`:
        the rows in scope go from both tables and their number is returned. */
    method Delete(fileName: Option<string>, project: string) returns (count: int)
      requires Valid()
      modifies this
      ensures Valid()
      ensures urnMappings == Seqs.Filter(old(urnMappings), KeepMapping(fileName, project))
      ensures references == Seqs.Filter(old(references), KeepReference(fileName, project))
      ensures count == Seqs.Count(old(urnMappings), DropMapping(fileName, project))
                     + Seqs.Count(old(references), DropReference(fileName, project))
    {
      var newM := Seqs.Filter(urnMappings, KeepMapping(fileName, project));
      var newR := Seqs.Filter(references, KeepReference(fileName, project));
      Seqs.FilterOutCount(urnMappings, KeepMapping(fileName, project), DropMapping(fileName, project));
      Seqs.FilterOutCount(references, KeepReference(fileName, project), DropReference(fileName, project));
      FilterKeysDistinct(urnMappings, KeepMapping(fileName, project));
      count := (|urnMappings| - |newM|) + (|references| - |newR|);
      urnMappings := newM;
      references := newR;
    }

    /** `remove_file`: deletes that file's rows of that project from both
        tables and returns how many rows were deleted. */
    method RemoveFile(fileName: string, project: string) returns (count: int)
      requires Valid()
      modifies this
      ensures Valid()
      ensures urnMappings == Seqs.Filter(old(urnMappings), KeepMapping(Some(fileName), project))
      ensures references == Seqs.Filter(old(references), KeepReference(Some(fileName), project))
      ensures count == Seqs.Count(old(urnMappings), DropMapping(Some(fileName), project))
                     + Seqs.Count(old(references), DropReference(Some(fileName), project))
    {
      count := Delete(Some(fileName), project);
    }

    /** `remove_project`: deletes every row of the project from both tables
        and returns how many rows were deleted. */
    method RemoveProject(project: string) returns (count: int)
      requires Valid()
      modifies this
      ensures Valid()
      ensures urnMappings == Seqs.Filter(old(urnMappings), KeepMapping(None, project))
      ensures references == Seqs.Filter(old(references), KeepReference(None, project))
      ensures count == Seqs.Count(old(urnMappings), DropMapping(None, project))
                     + Seqs.Count(old(references), DropReference(None, project))
    {
      count := Delete(None, project);
    }

    /** `index_project`: a missing or non-directory project path is a
        ValueError; otherwise each `*.xml` file is indexed, in the order
        `order` in which the loop visits them, and the sum of the counts is
        returned. Afterwards every URN declared in a parsable file of the
        project is a key of the table, no key was lost, and only rows of the
        project's files were added. */
    method IndexProject(project: string, projectDirectory: string, entry: DirEntry, now: int) returns (r: Result<int, PyError>, ghost order: seq<string>)
      requires Valid()
      modifies this
      ensures Valid()
      ensures entry.Missing? ==> r == Err(ValueError("Project directory does not exist: " + ProjectPath(projectDirectory, project)))
      ensures entry.NotADirectory? ==> r == Err(ValueError("Project path is not a directory: " + ProjectPath(projectDirectory, project)))
      ensures !entry.Directory? ==> urnMappings == old(urnMappings) && references == old(references)
      ensures entry.Directory? ==> Seqs.Enumerates(order, XmlNames(entry.files))
      ensures entry.Directory? ==> r == Ok(IndexTotal(entry.files, order))
      ensures entry.Directory? ==>
        Tables(urnMappings, references) == IndexFiles(old(Tables(urnMappings, references)), entry.files, order, project, now)
      ensures entry.Directory? ==> forall f, e ::
        (f in XmlNames(entry.files) && entry.files[f].doc.Some? && e in entry.files[f].doc.value && DeclaresUrn(e)) ==>
        HasKey(urnMappings, e.attrs["corresp"], project)
      ensures forall u, q :: HasKey(old(urnMappings), u, q) ==> HasKey(urnMappings, u, q)
      ensures entry.Directory? ==> forall x :: x in urnMappings ==>
        x in old(urnMappings) || (x.project == project && x.fileName in XmlNames(entry.files))
    {
      order := [];
      if entry.Missing? {
        return Err(ValueError("Project directory does not exist: " + ProjectPath(projectDirectory, project))), order;
      }
      if entry.NotADirectory? {
        return Err(ValueError("Project path is not a directory: " + ProjectPath(projectDirectory, project))), order;
      }
      var files := entry.files;
      var todo := XmlNames(files);
      var total := 0;
      while todo != {}
        invariant Valid() && todo <= XmlNames(files)
        invariant Seqs.Enumerates(order, XmlNames(files) - todo)
        invariant total == IndexTotal(files, order)
        invariant Tables(urnMappings, references) == IndexFiles(old(Tables(urnMappings, references)), files, order, project, now)
        invariant forall f, e ::
          (f in XmlNames(files) - todo && files[f].doc.Some? && e in files[f].doc.value && DeclaresUrn(e)) ==>
          HasKey(urnMappings, e.attrs["corresp"], project)
        invariant forall u, q :: HasKey(old(urnMappings), u, q) ==> HasKey(urnMappings, u, q)
        invariant forall x :: x in urnMappings ==> x in old(urnMappings) || (x.project == project && x.fileName in XmlNames(files))
        decreases todo
      {
        var f :| f in todo;
        ghost var m0 := urnMappings;
        ghost var doc := files[f].doc;
        if doc.Some? {
          MappingsAfterIndexingFacts(m0, doc.value, project, f, now);
        }
        var count := IndexFile(files[f].doc, project, f, now);
        total := total + count;
        assert (order + [f])[..|order|] == order;
        order := order + [f];
        todo := todo - {f};
      }
      return Ok(total), order;
    }

    /** `sync_file`: the new tables, the action and the count are
        `SyncFileStep` of the old tables, and only rows of that file change. */
    method SyncFile(fileName: string, project: string, files: map<string, DiskFile>, now: int) returns (action: SyncAction, count: int)
      requires Valid()
      modifies this
      ensures Valid()
      ensures ChangedOnlyFile(old(urnMappings), old(references), urnMappings, references, fileName, project)
      ensures SyncStep(Tables(urnMappings, references), action, count) ==
        SyncFileStep(old(Tables(urnMappings, references)), fileName, project, files, now)
    {
      if fileName !in files {
        count := RemoveFile(fileName, project);
        return Removed, count;
      }
      var last := FileLastUpdated(fileName, project);
      if last.None? {
        count := Reindex(fileName, project, files[fileName].doc, now);
        return Added, count;
      } else if files[fileName].mtime > last.value {
        var _ := RemoveFile(fileName, project);
        count := Reindex(fileName, project, files[fileName].doc, now);
        return Updated, count;
      }
      return Skipped, 0;
    }

    /** `index_file` with the frame facts `sync_file` needs. */
    method Reindex(fileName: string, project: string, doc: Option<seq<IndexedElement>>, now: int) returns (count: int)
      requires Valid()
      modifies this
      ensures Valid()
      ensures count == DocCount(doc)
      ensures Tables(urnMappings, references) == IndexedTables(old(Tables(urnMappings, references)), doc, project, fileName, now)
      ensures ChangedOnlyFile(old(urnMappings), old(references), urnMappings, references, fileName, project)
    {
      if doc.Some? {
        MappingsAfterIndexingFacts(urnMappings, doc.value, project, fileName, now);
        ReferencesFromIndexingOfFile(doc.value, project, fileName, now);
      }
      count := IndexFile(doc, project, fileName, now);
    }

    /** `sync_project`: a missing project directory removes the whole
        project; otherwise the files the database knows in either table but
        the directory lacks are removed (the code asks only the URN table,
        see `StoredFilesAsWritten`) and then each `*.xml` file is synced, in
        the order `order`, summing the counts. Afterwards every row of the
        project names a file on disk, and rows of other projects are as
        before. */
    method SyncProject(project: string, entry: DirEntry, now: int) returns (report: ProjectReport, ghost order: seq<string>)
      requires Valid()
      modifies this
      ensures Valid()
      ensures OthersUnchanged(old(urnMappings), old(references), urnMappings, references, project)
      ensures ProjectSynced(old(Tables(urnMappings, references)), Tables(urnMappings, references), report, order, project, entry, now)
      ensures entry.Directory? ==> (0 <= report.skipped <= |XmlNames(entry.files)| &&
        report.added >= 0 && report.updated >= 0 && report.removed >= 0)
      ensures entry.Directory? ==> FilesOnDisk(urnMappings, references, project, XmlNames(entry.files))
    {
      order := [];
      if !entry.Directory? {
        var removed := RemoveProject(project);
        report := ProjectReport(true, 0, 0, removed, 0);
        return;
      }
      var disk := XmlNames(entry.files);
      var orphans := StoredFiles(urnMappings, references, project) - disk;
      OrphansRemovedLeaveDisk(Tables(urnMappings, references), project, disk);
      var removedCount := RemoveOrphanFiles(orphans, project);
      var added, updated, skipped;
      added, updated, skipped, order := SyncDiskFiles(project, entry.files, now);
      report := ProjectReport(false, added, updated, removedCount, skipped);
    }

    /** The first loop of `sync_project`: `remove_file` for each orphan. */
    method RemoveOrphanFiles(orphans: set<string>, project: string) returns (removed: int)
      requires Valid()
      modifies this
      ensures Valid()
      ensures Tables(urnMappings, references) == WithoutFiles(old(Tables(urnMappings, references)), orphans, project)
      ensures removed == RemovedFileRows(old(Tables(urnMappings, references)), orphans, project)
    {
      removed := 0;
      var todo := orphans;
      ghost var t0 := Tables(urnMappings, references);
      assert t0.mappings == Seqs.Filter(t0.mappings, KeepFiles({}, project)) by {
        Seqs.FilterAll(t0.mappings, KeepFiles({}, project));
      }
      assert t0.references == Seqs.Filter(t0.references, KeepFileReferences({}, project)) by {
        Seqs.FilterAll(t0.references, KeepFileReferences({}, project));
      }
      Seqs.CountNone(t0.mappings, DropFiles({}, project));
      Seqs.CountNone(t0.references, DropFileReferences({}, project));
      assert orphans - todo == {};
      while todo != {}
        invariant Valid() && todo <= orphans
        invariant Tables(urnMappings, references) == WithoutFiles(t0, orphans - todo, project)
        invariant removed == RemovedFileRows(t0, orphans - todo, project)
        decreases todo
      {
        var f :| f in todo;
        ghost var done := orphans - todo;
        var n := RemoveFile(f, project);
        Seqs.FilterFilter(t0.mappings, KeepFiles(done, project), KeepMapping(Some(f), project), KeepFiles(done + {f}, project));
        Seqs.FilterFilter(t0.references, KeepFileReferences(done, project), KeepReference(Some(f), project),
                          KeepFileReferences(done + {f}, project));
        Seqs.CountAfterFilter(t0.mappings, DropFiles(done, project), KeepFiles(done, project), DropMapping(Some(f), project),
                              DropFiles(done + {f}, project));
        Seqs.CountAfterFilter(t0.references, DropFileReferences(done, project), KeepFileReferences(done, project),
                              DropReference(Some(f), project), DropFileReferences(done + {f}, project));
        removed := removed + n;
        todo := todo - {f};
        assert orphans - todo == done + {f};
      }
      assert orphans - todo == orphans;
    }

    /** The second loop of `sync_project`: `sync_file` for each `*.xml` file,
        in the order `order` in which the loop visits them. */
    method SyncDiskFiles(project: string, files: map<string, DiskFile>, now: int) returns (added: int, updated: int, skipped: int, ghost order: seq<string>)
      requires Valid()
      modifies this
      ensures Valid()
      ensures Seqs.Enumerates(order, XmlNames(files))
      ensures SyncFiles(old(Tables(urnMappings, references)), files, order, project, now) ==
        SyncRun(Tables(urnMappings, references), added, updated, skipped)
      ensures added >= 0 && updated >= 0 && 0 <= skipped <= |XmlNames(files)|
      ensures OthersUnchanged(old(urnMappings), old(references), urnMappings, references, project)
      ensures FilesOnDisk(old(urnMappings), old(references), project, XmlNames(files)) ==>
        FilesOnDisk(urnMappings, references, project, XmlNames(files))
    {
      added, updated, skipped := 0, 0, 0;
      order := [];
      var disk := XmlNames(files);
      var todo := disk;
      while todo != {}
        invariant Valid() && todo <= disk
        invariant Seqs.Enumerates(order, disk - todo)
        invariant SyncFiles(old(Tables(urnMappings, references)), files, order, project, now) ==
          SyncRun(Tables(urnMappings, references), added, updated, skipped)
        invariant added >= 0 && updated >= 0 && 0 <= skipped <= |disk| - |todo|
        invariant OthersUnchanged(old(urnMappings), old(references), urnMappings, references, project)
        invariant FilesOnDisk(old(urnMappings), old(references), project, disk) ==> FilesOnDisk(urnMappings, references, project, disk)
        decreases todo
      {
        var f :| f in todo;
        SyncFilesAppend(old(Tables(urnMappings, references)), files, order, f, project, now);
        var action, count := SyncFile(f, project, files, now);
        if action == Added {
          added := added + count;
        } else if action == Updated {
          updated := updated + count;
        } else if action == Skipped {
          skipped := skipped + 1;
        }
        order := order + [f];
        todo := todo - {f};
      }
    }

    /** `sync_projects`: a missing base directory is a ValueError; otherwise
        the projects the database knows in either table but the base
        directory lacks are removed (the code asks only the URN table, see
        `StoredProjectsAsWritten`) and then every project directory is
        synced, in the order `order`, through the table states `states`. The
        report counts the orphaned projects, and its totals are the sums of
        the per-project counts (plus, for `removed`, the rows of the orphaned
        projects). Afterwards every row belongs to a project directory and
        names one of its `*.xml` files. */
    method SyncProjects(projectDirectory: string, base: Option<map<string, DirEntry>>, now: int)
      returns (r: Result<ProjectsReport, PyError>, ghost order: seq<string>, ghost states: seq<Tables>, ghost inner: map<string, seq<string>>)
      requires Valid()
      modifies this
      ensures Valid()
      ensures base.None? ==> (r == Err(ValueError("Project directory does not exist: " + projectDirectory)) &&
        urnMappings == old(urnMappings) && references == old(references))
      ensures base.Some? ==> r.Ok? && r.value.projects.Keys == DiskProjects(base.value)
      ensures base.Some? ==> AllOnDisk(urnMappings, references, base.value)
      ensures base.Some? ==> Seqs.Enumerates(order, DiskProjects(base.value))
      ensures base.Some? ==>
        var orphans := StoredProjects(old(urnMappings), old(references)) - DiskProjects(base.value);
        var sums := SumReports(r.value.projects, order);
        && r.value.orphanedProjectsRemoved == |orphans|
        && r.value.added == sums.added && r.value.updated == sums.updated && r.value.skipped == sums.skipped
        && r.value.removed == RemovedProjectRows(old(Tables(urnMappings, references)), orphans) + sums.removed
      ensures base.Some? ==>
        var orphans := StoredProjects(old(urnMappings), old(references)) - DiskProjects(base.value);
        && ProjectsChain(states, r.value.projects, inner, order, base.value, now)
        && states[0] == WithoutProjects(old(Tables(urnMappings, references)), orphans)
        && states[|order|] == Tables(urnMappings, references)
    {
      order, states, inner := [], [], map[];
      if base.None? {
        r := Err(ValueError("Project directory does not exist: " + projectDirectory));
        return;
      }
      var dirs := base.value;
      var orphans := StoredProjects(urnMappings, references) - DiskProjects(dirs);
      var removed := RemoveOrphanProjects(orphans, DiskProjects(dirs));
      var report;
      report, order, states, inner := SyncDiskProjects(dirs, now);
      r := Ok(report.(removed := removed + report.removed, orphanedProjectsRemoved := |orphans|));
    }

    /** The first loop of `sync_projects`: `remove_project` for each orphan. */
    method RemoveOrphanProjects(orphans: set<string>, keep: set<string>) returns (removed: int)
      requires Valid()
      requires ProjectsIn(urnMappings, references, keep + orphans)
      modifies this
      ensures Valid() && ProjectsIn(urnMappings, references, keep)
      ensures Tables(urnMappings, references) == WithoutProjects(old(Tables(urnMappings, references)), orphans)
      ensures removed == RemovedProjectRows(old(Tables(urnMappings, references)), orphans)
    {
      removed := 0;
      var todo := orphans;
      ghost var t0 := Tables(urnMappings, references);
      assert t0.mappings == Seqs.Filter(t0.mappings, KeepProjects({})) by {
        Seqs.FilterAll(t0.mappings, KeepProjects({}));
      }
      assert t0.references == Seqs.Filter(t0.references, KeepProjectReferences({})) by {
        Seqs.FilterAll(t0.references, KeepProjectReferences({}));
      }
      Seqs.CountNone(t0.mappings, DropProjects({}));
      Seqs.CountNone(t0.references, DropProjectReferences({}));
      assert orphans - todo == {};
      while todo != {}
        invariant Valid() && todo <= orphans
        invariant ProjectsIn(urnMappings, references, keep + todo)
        invariant Tables(urnMappings, references) == WithoutProjects(t0, orphans - todo)
        invariant removed == RemovedProjectRows(t0, orphans - todo)
        decreases todo
      {
        var p :| p in todo;
        ghost var done := orphans - todo;
        var n := RemoveProject(p);
        Seqs.FilterFilter(t0.mappings, KeepProjects(done), KeepMapping(None, p), KeepProjects(done + {p}));
        Seqs.FilterFilter(t0.references, KeepProjectReferences(done), KeepReference(None, p), KeepProjectReferences(done + {p}));
        Seqs.CountAfterFilter(t0.mappings, DropProjects(done), KeepProjects(done), DropMapping(None, p), DropProjects(done + {p}));
        Seqs.CountAfterFilter(t0.references, DropProjectReferences(done), KeepProjectReferences(done),
                              DropReference(None, p), DropProjectReferences(done + {p}));
        removed := removed + n;
        todo := todo - {p};
        assert orphans - todo == done + {p};
      }
      assert orphans - todo == orphans;
    }

    /** The second loop of `sync_projects`: `sync_project` for each project
        directory, in the order `order`, keeping each report and summing
        their counts. The tables pass through `states`, one `sync_project`
        per step, with the files of project `q` visited in `inner[q]`. */
    method SyncDiskProjects(dirs: map<string, DirEntry>, now: int)
      returns (report: ProjectsReport, ghost order: seq<string>, ghost states: seq<Tables>, ghost inner: map<string, seq<string>>)
      requires Valid() && ProjectsIn(urnMappings, references, DiskProjects(dirs))
      modifies this
      ensures Valid() && report.projects.Keys == DiskProjects(dirs)
      ensures AllOnDisk(urnMappings, references, dirs)
      ensures Seqs.Enumerates(order, DiskProjects(dirs))
      ensures ProjectsChain(states, report.projects, inner, order, dirs, now)
      ensures states[0] == old(Tables(urnMappings, references)) && states[|order|] == Tables(urnMappings, references)
      ensures SumReports(report.projects, order) == Totals(report.added, report.updated, report.removed, report.skipped)
      ensures report.orphanedProjectsRemoved == 0
    {
      var totals := Totals(0, 0, 0, 0);
      var results: map<string, ProjectReport> := map[];
      var todo := DiskProjects(dirs);
      ghost var t0 := Tables(urnMappings, references);
      order, states, inner := [], [t0], map[];
      assert ProjectsChain(states, results, inner, order, dirs, now);
      while todo != {}
        invariant ProjectsLoop(dirs, now, t0, todo, results, order, states, inner, totals)
        decreases todo
      {
        var p :| p in todo;
        var result;
        ghost var io;
        result, io := SyncDiskProject(dirs, p, now, t0, todo, results, order, states, inner, totals);
        results := results[p := result];
        totals := Totals(totals.added + result.added, totals.updated + result.updated,
                         totals.removed + result.removed, totals.skipped + result.skipped);
        order, states, inner := order + [p], states + [Tables(urnMappings, references)], inner[p := io];
        todo := todo - {p};
      }
      AllOnDiskFromProjects(urnMappings, references, dirs);
      return ProjectsReport(totals.added, totals.updated, totals.removed, totals.skipped, results, 0), order, states, inner;
    }

    /** The state of that loop with the projects `todo` still to sync:
        `results`, `order`, `states` and `inner` describe the projects done,
        starting from the tables `t0`, `totals` sums their counts, and every
        row of a project done names one of its `*.xml` files. */
    ghost predicate ProjectsLoop(dirs: map<string, DirEntry>, now: int, t0: Tables, todo: set<string>,
                                 results: map<string, ProjectReport>, order: seq<string>, states: seq<Tables>,
                                 inner: map<string, seq<string>>, totals: Totals)
      reads this
    {
      && Valid()
      && ProjectsDone(dirs, now, t0, todo, results, order, states, inner, totals)
      && states[|order|] == Tables(urnMappings, references)
      && ProjectsIn(urnMappings, references, DiskProjects(dirs))
      && forall q :: q in DiskProjects(dirs) - todo ==> FilesOnDisk(urnMappings, references, q, XmlNames(dirs[q].files))
    }

    /** One turn of the second loop of `sync_projects`: `sync_project` for
        the directory `p`, still to do, extending the loop's state by it. */
    method SyncDiskProject(dirs: map<string, DirEntry>, p: string, now: int, ghost t0: Tables, ghost todo: set<string>,
                           results: map<string, ProjectReport>, ghost order: seq<string>, ghost states: seq<Tables>,
                           ghost inner: map<string, seq<string>>, totals: Totals)
      returns (result: ProjectReport, ghost io: seq<string>)
      requires ProjectsLoop(dirs, now, t0, todo, results, order, states, inner, totals) && p in todo
      modifies this
      ensures ProjectSynced(old(Tables(urnMappings, references)), Tables(urnMappings, references), result, io, p, dirs[p], now)
      ensures ProjectsLoop(dirs, now, t0, todo - {p}, results[p := result], order + [p],
                           states + [Tables(urnMappings, references)], inner[p := io],
                           Totals(totals.added + result.added, totals.updated + result.updated,
                                  totals.removed + result.removed, totals.skipped + result.skipped))
    {
      ghost var m0, r0 := urnMappings, references;
      result, io := SyncProject(p, dirs[p], now);
      ProjectsTurn(dirs, now, t0, todo, results, order, states, inner, totals, p, Tables(urnMappings, references), result, io);
      forall q | q in DiskProjects(dirs) - todo
        ensures FilesOnDisk(urnMappings, references, q, XmlNames(dirs[q].files))
      {
        OtherFilesStayOnDisk(m0, r0, urnMappings, references, p, q, XmlNames(dirs[q].files));
      }
      SyncKeepsProjectsIn(m0, r0, urnMappings, references, p, DiskProjects(dirs));
    }

    /** `get_references_by_project`: the project's references ordered by
        element path; rows with equal paths keep their stored order. */
    function GetReferencesByProject(project: string): (r: seq<Reference>)
      reads this
      ensures Ordering.SortedByText(r, (x: Reference) => x.elementPath)
      ensures multiset(r) == multiset(Seqs.Filter(ReferencesOf(references), (x: Reference) => x.project == project))
    {
      Ordering.SortByText(Seqs.Filter(ReferencesOf(references), (x: Reference) => x.project == project), (x: Reference) => x.elementPath)
    }
  }

  function FileNamesOf(rows: seq<MappingRow>, project: string): (r: seq<string>)
    ensures forall f :: f in r <==> exists i :: 0 <= i < |rows| && rows[i].project == project && rows[i].fileName == f
  {
    if |rows| == 0 then []
    else
      assert forall i :: 1 <= i < |rows| ==> rows[i] == rows[1..][i - 1];
      (if rows[0].project == project then [rows[0].fileName] else []) + FileNamesOf(rows[1..], project)
  }

  function ProjectsOf(rows: seq<MappingRow>): (r: seq<string>)
    ensures forall p :: p in r <==> exists i :: 0 <= i < |rows| && rows[i].project == p
  {
    if |rows| == 0 then []
    else
      assert forall i :: 1 <= i < |rows| ==> rows[i] == rows[1..][i - 1];
      [rows[0].project] + ProjectsOf(rows[1..])
  }

  function MappingTimes(rows: seq<MappingRow>, fileName: string, project: string): (r: seq<int>)
    ensures (|r| == 0) <==> forall i :: 0 <= i < |rows| ==> !OfFile(fileName, project, rows[i])
    ensures forall t :: t in r <==> exists i :: 0 <= i < |rows| && OfFile(fileName, project, rows[i]) && rows[i].updatedAt == t
  {
    if |rows| == 0 then []
    else
      assert forall i :: 1 <= i < |rows| ==> rows[i] == rows[1..][i - 1];
      (if OfFile(fileName, project, rows[0]) then [rows[0].updatedAt] else []) + MappingTimes(rows[1..], fileName, project)
  }

  function ReferenceTimes(rows: seq<ReferenceRow>, fileName: string, project: string): (r: seq<int>)
    ensures (|r| == 0) <==> forall i :: 0 <= i < |rows| ==> !RefOfFile(fileName, project, rows[i])
    ensures forall t :: t in r <==> exists i :: 0 <= i < |rows| && RefOfFile(fileName, project, rows[i]) && rows[i].updatedAt == t
  {
    if |rows| == 0 then []
    else
      assert forall i :: 1 <= i < |rows| ==> rows[i] == rows[1..][i - 1];
      (if RefOfFile(fileName, project, rows[0]) then [rows[0].updatedAt] else []) + ReferenceTimes(rows[1..], fileName, project)
  }
}
