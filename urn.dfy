/** The resolver for `urn:x-opensiddur:` URNs (`UrnResolver`). The resolver
    only reads the `urn_mappings` table of its reference index; the table is
    passed to every operation as its rows. */
module Urn {
  import opened Wrappers
  import PyStr
  import Ordering
  import Seqs
  import RefDb
  import Cache

  datatype ResolvedUrn = ResolvedUrn(project: string, fileName: string, urn: string)

  datatype ResolvedUrnRange = ResolvedUrnRange(start: ResolvedUrn, end: ResolvedUrn)

  /** An element of the list `resolve_range` returns. */
  datatype Resolution = Single(single: ResolvedUrn) | Range(range: ResolvedUrnRange)

  /** An element of the list `prioritize_range` takes. */
  datatype Candidate =
    | UrnCandidate(urn: ResolvedUrn)
    | RangeCandidate(range: ResolvedUrnRange)
    | ReferenceCandidate(reference: RefDb.Reference)

  /** `urn.rsplit('@', 1)` when the URN holds an `@`: the URN proper and its
      project specifier. */
  function Qualifier(urn: string): (r: (string, Option<string>))
    ensures r.1.None? <==> '@' !in urn
    ensures r.1.None? ==> r.0 == urn
    ensures r.1.Some? ==> r.0 + "@" + r.1.value == urn && '@' !in r.1.value
  {
    if '@' in urn then
      var parts := PyStr.RSplitOnce(urn, '@');
      (parts.0, Some(parts.1))
    else (urn, None)
  }

  /** A URN written `urn@project` is read back as that URN and that project. */
  lemma QualifierOf(u: string, p: string)
    requires '@' !in p
    ensures Qualifier(u + "@" + p) == (u, Some(p))
  {
    assert (u + "@" + p)[|u|] == '@';
    PyStr.RSplitOnceOf(u, p, '@');
  }

  /** The URN `resolve_range` passes on: the project specifier is attached
      again only when it is non-empty. */
  function Requalify(urn: string, spec: Option<string>): string
  {
    if Truthy(spec) then urn + "@" + spec.value else urn
  }

  /** What `get_urn_mappings` returns for the URN `resolve` is given. */
  function MappingsFor(rows: seq<RefDb.MappingRow>, urn: string): seq<RefDb.UrnMapping>
  {
    var q := Qualifier(urn);
    RefDb.SelectMappings(rows, RefDb.MatchMapping(Some(q.0), q.1))
  }

  function Resolved(m: RefDb.UrnMapping, urn: string): ResolvedUrn
  {
    ResolvedUrn(m.project, m.fileName, urn)
  }

  /** `resolve`: one result per mapping the lookup returns, each carrying the
      URN without its project specifier. */
  function Resolve(rows: seq<RefDb.MappingRow>, urn: string): (r: seq<ResolvedUrn>)
    ensures |r| == |MappingsFor(rows, urn)|
    ensures forall x :: x in r ==> x.urn == Qualifier(urn).0
    ensures forall x :: x in r <==>
      exists i :: 0 <= i < |rows| && RefDb.MappingMatches(rows[i], Some(Qualifier(urn).0), Qualifier(urn).1)
        && x == ResolvedUrn(rows[i].project, rows[i].fileName, Qualifier(urn).0)
  {
    var q := Qualifier(urn);
    var ms := MappingsFor(rows, urn);
    var r := seq(|ms|, i requires 0 <= i < |ms| => Resolved(ms[i], q.0));
    forall x | x in r ensures exists i :: (0 <= i < |rows| && RefDb.MappingMatches(rows[i], Some(q.0), q.1)
        && x == ResolvedUrn(rows[i].project, rows[i].fileName, q.0)) {
      var k :| 0 <= k < |r| && r[k] == x;
      assert ms[k] in ms;
      var i :| 0 <= i < |rows| && RefDb.MatchMapping(Some(q.0), q.1)(rows[i]) && ms[k] == RefDb.ToMapping(rows[i]);
    }
    forall i | 0 <= i < |rows| && RefDb.MappingMatches(rows[i], Some(q.0), q.1)
      ensures ResolvedUrn(rows[i].project, rows[i].fileName, q.0) in r {
      assert RefDb.ToMapping(rows[i]) in ms;
      var k :| 0 <= k < |ms| && ms[k] == RefDb.ToMapping(rows[i]);
      assert r[k] == Resolved(ms[k], q.0);
    }
    r
  }

  /** As written, `resolve` reads `element_path` from the mappings
      `get_urn_mappings` returns, and those carry no such field: every lookup
      that finds a mapping raises. */
  function ResolveAsWritten(rows: seq<RefDb.MappingRow>, urn: string): (r: Result<seq<ResolvedUrn>, PyError>)
    ensures r.Ok? <==> Resolve(rows, urn) == []
    ensures r.Ok? ==> r.value == []
  {
    if |MappingsFor(rows, urn)| == 0 then Ok([]) else Err(AttributeError("element_path"))
  }

  /** A stored URN resolves under the written code only by raising. */
  lemma ResolveAsWrittenRaises()
    ensures ResolveAsWritten([RefDb.MappingRow("g/1", "wlc", "g.xml", 0)], "g/1")
      == Err(AttributeError("element_path"))
    ensures Resolve([RefDb.MappingRow("g/1", "wlc", "g.xml", 0)], "g/1")
      == [ResolvedUrn("wlc", "g.xml", "g/1")]
  {
    var rows := [RefDb.MappingRow("g/1", "wlc", "g.xml", 0)];
    assert Qualifier("g/1") == ("g/1", None);
    assert RefDb.MappingMatches(rows[0], Some("g/1"), None);
    var ms := MappingsFor(rows, "g/1");
    assert RefDb.SelectMappings(rows[1..], RefDb.MatchMapping(Some("g/1"), None)) == [];
    assert ms == [RefDb.ToMapping(rows[0])];
  }

  /** With a non-empty URN and project there is at most one mapping: the
      table row under that key. */
  lemma {:induction false} SelectKeyed(rows: seq<RefDb.MappingRow>, u: string, p: string)
    requires RefDb.KeysDistinct(rows) && u != "" && p != ""
    ensures RefDb.SelectMappings(rows, RefDb.MatchMapping(Some(u), Some(p))) ==
      match RefDb.Lookup(rows, u, p)
      case None => []
      case Some(row) => [RefDb.ToMapping(row)]
  {
    var pick := RefDb.MatchMapping(Some(u), Some(p));
    if |rows| > 0 {
      var t := RefDb.SelectMappings(rows[1..], pick);
      SelectKeyed(rows[1..], u, p);
      if pick(rows[0]) {
        assert RefDb.FindKey(rows, u, p) == Some(0);
        assert RefDb.FindKey(rows[1..], u, p) == None by {
          forall i | 0 <= i < |rows[1..]| ensures (rows[1..][i].urn, rows[1..][i].project) != (u, p) {
            assert rows[1..][i] == rows[i + 1];
          }
        }
      }
    }
  }

  /** `resolve("urn@project")` returns the one stored mapping of that URN in
      that project, or nothing. */
  lemma ResolveQualified(rows: seq<RefDb.MappingRow>, u: string, p: string)
    requires RefDb.KeysDistinct(rows) && u != "" && p != "" && '@' !in p
    ensures Resolve(rows, u + "@" + p) ==
      match RefDb.Lookup(rows, u, p)
      case None => []
      case Some(row) => [ResolvedUrn(p, row.fileName, u)]
  {
    QualifierOf(u, p);
    SelectKeyed(rows, u, p);
  }

  /** After `add_urn_mapping(u, p, f)`, `u@p` resolves to exactly that
      file. */
  lemma ResolveAfterAdd(rows: seq<RefDb.MappingRow>, u: string, p: string, f: string, now: int)
    requires RefDb.KeysDistinct(rows) && u != "" && p != "" && '@' !in p
    ensures Resolve(RefDb.Upsert(rows, u, p, f, now), u + "@" + p) == [ResolvedUrn(p, f, u)]
  {
    RefDb.UpsertLookup(rows, u, p, f, now, u, p);
    ResolveQualified(RefDb.Upsert(rows, u, p, f, now), u, p);
  }

  /** `get_urns_by_project`: every mapping the project-only lookup returns,
      under its own URN; an empty project name selects every mapping. */
  function GetUrnsByProject(rows: seq<RefDb.MappingRow>, project: string): (r: seq<ResolvedUrn>)
    ensures forall x :: x in r <==>
      exists i :: 0 <= i < |rows| && RefDb.MappingMatches(rows[i], None, Some(project))
        && x == ResolvedUrn(rows[i].project, rows[i].fileName, rows[i].urn)
    ensures project != "" ==> forall x :: x in r ==> x.project == project
    ensures project == "" ==> forall i :: 0 <= i < |rows| ==>
      ResolvedUrn(rows[i].project, rows[i].fileName, rows[i].urn) in r
  {
    var ms := RefDb.SelectMappings(rows, RefDb.MatchMapping(None, Some(project)));
    var r := seq(|ms|, i requires 0 <= i < |ms| => Resolved(ms[i], ms[i].urn));
    forall x | x in r ensures exists i :: (0 <= i < |rows| && RefDb.MappingMatches(rows[i], None, Some(project))
        && x == ResolvedUrn(rows[i].project, rows[i].fileName, rows[i].urn)) {
      var k :| 0 <= k < |r| && r[k] == x;
      assert ms[k] in ms;
      var i :| 0 <= i < |rows| && RefDb.MatchMapping(None, Some(project))(rows[i]) && ms[k] == RefDb.ToMapping(rows[i]);
    }
    forall i | 0 <= i < |rows| && RefDb.MappingMatches(rows[i], None, Some(project))
      ensures ResolvedUrn(rows[i].project, rows[i].fileName, rows[i].urn) in r {
      assert RefDb.ToMapping(rows[i]) in ms;
      var k :| 0 <= k < |ms| && ms[k] == RefDb.ToMapping(rows[i]);
      assert r[k] == Resolved(ms[k], ms[k].urn);
    }
    r
  }

  /** As written, `get_urns_by_project` reads the missing `element_path` too. */
  function GetUrnsByProjectAsWritten(rows: seq<RefDb.MappingRow>, project: string): (r: Result<seq<ResolvedUrn>, PyError>)
    ensures r.Ok? <==> GetUrnsByProject(rows, project) == []
    ensures r.Ok? ==> r.value == []
  {
    var ms := RefDb.SelectMappings(rows, RefDb.MatchMapping(None, Some(project)));
    if |ms| == 0 then Ok([])
    else
      assert ms[0] in ms;
      assert Resolved(ms[0], ms[0].urn) in GetUrnsByProject(rows, project);
      Err(AttributeError("element_path"))
  }

  // ---------------------------------------------------------------------
  // Ranges

  /** The index `i` with `1 <= i < n` nearest the end whose component holds
      a `-`; the first component, which holds the scheme, never counts. */
  function LastDashBelow(parts: seq<string>, n: nat): (r: Option<nat>)
    requires n <= |parts|
    ensures r.Some? ==> (1 <= r.value < n && '-' in parts[r.value]
      && forall j :: r.value < j < n ==> '-' !in parts[j])
    ensures r.None? ==> forall j :: 1 <= j < n ==> '-' !in parts[j]
    decreases n
  {
    if n <= 1 then None
    else if '-' in parts[n - 1] then Some(n - 1)
    else LastDashBelow(parts, n - 1)
  }

  /** The backwards scan of `resolve_range` for the component that holds the
      range. */
  method FindRangeStart(parts: seq<string>) returns (idx: Option<nat>)
    ensures idx == LastDashBelow(parts, |parts|)
  {
    idx := None;
    var i := |parts| - 1;
    while i >= 1
      invariant -1 <= i < |parts|
      invariant LastDashBelow(parts, |parts|) == LastDashBelow(parts, i + 1)
      decreases i
    {
      if '-' in parts[i] {
        return Some(i);
      }
      i := i - 1;
    }
  }

  /** `s[:k]`, with Python's reading of a negative or oversized bound. */
  function TakePrefix<T>(s: seq<T>, k: int): seq<T>
  {
    if k >= 0 then (if k <= |s| then s[..k] else s)
    else if |s| + k >= 0 then s[..|s| + k]
    else []
  }

  /** The components of the start and end URNs of a range whose `-` is in
      component `idx`: the start keeps the text before the `-`; the end spec
      (the text after it and the remaining components) replaces as many
      trailing components. */
  function RangeParts(parts: seq<string>, idx: nat): (seq<string>, seq<string>)
    requires 1 <= idx < |parts| && '-' in parts[idx]
  {
    var halves := PyStr.SplitOnce(parts[idx], '-');
    var startParts := parts[..idx] + [halves.0];
    var remaining := parts[idx + 1..];
    var endSpec := if |remaining| > 0 then halves.1 + "/" + PyStr.Join(remaining, "/") else halves.1;
    var endSpecParts := PyStr.Split(endSpec, '/');
    (startParts, TakePrefix(parts, idx - |endSpecParts| + 1) + endSpecParts)
  }

  /** The start and end URNs `resolve_range` derives from a URN without its
      project specifier, or None when the URN is not a range. */
  function RangeEndsOf(ranged: string): Option<(string, string)>
  {
    var parts := PyStr.Split(ranged, '/');
    if |parts| < 2 then None
    else match LastDashBelow(parts, |parts|)
      case None => None
      case Some(idx) =>
        var rp := RangeParts(parts, idx);
        Some((PyStr.Join(rp.0, "/"), PyStr.Join(rp.1, "/")))
  }

  /** For components split at `/`: the start replaces the range component by
      the text before its `-`, and the end is the first `idx + 1 - N`
      components followed by the `N` components of the end spec (the text
      after the `-` and the components after it); while the start has at
      least `N` components, those are the start's own first components. */
  lemma RangePartsReplace(parts: seq<string>, idx: nat)
    requires 1 <= idx < |parts| && '-' in parts[idx]
    requires forall j :: 0 <= j < |parts| ==> '/' !in parts[j]
    ensures var halves := PyStr.SplitOnce(parts[idx], '-');
      var n := |parts| - idx;
      var startParts := parts[..idx] + [halves.0];
      && RangeParts(parts, idx).0 == startParts
      && RangeParts(parts, idx).1 == TakePrefix(parts, idx + 1 - n) + ([halves.1] + parts[idx + 1..])
      && (n <= idx + 1 ==> RangeParts(parts, idx).1 == startParts[..idx + 1 - n] + ([halves.1] + parts[idx + 1..]))
  {
    var halves := PyStr.SplitOnce(parts[idx], '-');
    var remaining := parts[idx + 1..];
    var spec := [halves.1] + remaining;
    assert '/' !in halves.1 by {
      assert parts[idx] == halves.0 + ['-'] + halves.1;
      assert halves.1 == parts[idx][|halves.0| + 1..];
    }
    forall j | 0 <= j < |spec| ensures '/' !in spec[j] {
      if j > 0 { assert spec[j] == parts[idx + j]; }
    }
    if |remaining| > 0 {
      assert spec[1..] == remaining;
      assert PyStr.Join(spec, "/") == halves.1 + "/" + PyStr.Join(remaining, "/");
    }
    PyStr.SplitJoin(spec, '/');
    var n := |parts| - idx;
    var startParts := parts[..idx] + [halves.0];
    if n <= idx + 1 {
      assert TakePrefix(parts, idx + 1 - n) == startParts[..idx + 1 - n];
    }
  }

  /** A URN whose components hold no `/` splits back into them, and its
      range, if any, is the one found in those components. */
  lemma RangeEndsOfJoin(parts: seq<string>)
    requires |parts| >= 2 && forall j :: 0 <= j < |parts| ==> '/' !in parts[j]
    ensures RangeEndsOf(PyStr.Join(parts, "/")) ==
      match LastDashBelow(parts, |parts|)
      case None => None
      case Some(idx) => Some((PyStr.Join(RangeParts(parts, idx).0, "/"), PyStr.Join(RangeParts(parts, idx).1, "/")))
  {
    PyStr.SplitJoin(parts, '/');
  }

  lemma SplitDash()
    ensures PyStr.SplitOnce("1-2", '-') == ("1", "2")
  {
    assert "1-2" == "1" + "-" + "2";
    PyStr.SplitOnceOf("1", "2", '-');
  }

  /** The example `genesis/1/1-2`: the end replaces the last component, and
      ends at `genesis/1/2`. */
  lemma RangeLastComponent()
    ensures LastDashBelow(["genesis", "1", "1-2"], 3) == Some(2)
    ensures RangeParts(["genesis", "1", "1-2"], 2) == (["genesis", "1", "1"], ["genesis", "1", "2"])
  {
    var a := ["genesis", "1", "1-2"];
    SplitDash();
    RangePartsReplace(a, 2);
    assert a[..2] == ["genesis", "1"] && a[3..] == [];
    assert TakePrefix(a, 2) == ["genesis", "1"];
    assert ["genesis", "1"] + ["1"] == ["genesis", "1", "1"];
    assert ["genesis", "1"] + (["2"] + []) == ["genesis", "1", "2"];
  }

  /** The example `genesis/1/1-2/3`: a two-component end spec replaces the
      last two components, and ends at `genesis/2/3`. */
  lemma RangeTwoComponents()
    ensures LastDashBelow(["genesis", "1", "1-2", "3"], 4) == Some(2)
    ensures RangeParts(["genesis", "1", "1-2", "3"], 2) == (["genesis", "1", "1"], ["genesis", "2", "3"])
  {
    var b := ["genesis", "1", "1-2", "3"];
    SplitDash();
    RangePartsReplace(b, 2);
    assert b[..2] == ["genesis", "1"] && b[3..] == ["3"];
    assert TakePrefix(b, 1) == ["genesis"];
    assert ["genesis", "1"] + ["1"] == ["genesis", "1", "1"];
    assert ["genesis"] + (["2"] + ["3"]) == ["genesis", "2", "3"];
  }

  /** An end spec with more components than the start wraps round: Python
      reads the negative bound from the end, so `g/1-2/3/4` ends at
      `g/1-2/3/2/3/4`. */
  lemma RangeLongEndSpec()
    ensures LastDashBelow(["g", "1-2", "3", "4"], 4) == Some(1)
    ensures RangeParts(["g", "1-2", "3", "4"], 1) == (["g", "1"], ["g", "1-2", "3", "2", "3", "4"])
  {
    var a := ["g", "1-2", "3", "4"];
    SplitDash();
    RangePartsReplace(a, 1);
    assert a[..1] == ["g"] && a[2..] == ["3", "4"];
    assert TakePrefix(a, -1) == ["g", "1-2", "3"];
    assert ["g"] + ["1"] == ["g", "1"];
    assert ["g", "1-2", "3"] + (["2"] + ["3", "4"]) == ["g", "1-2", "3", "2", "3", "4"];
  }

  /** A URN without `/`, such as `urn:x-opensiddur:test:doc`, is never a
      range, whatever dashes its scheme part holds. */
  lemma SchemeDashIsNoRange(ranged: string)
    requires '/' !in ranged
    ensures RangeEndsOf(ranged) == None
  {
    assert PyStr.Find(ranged, '/') == None;
  }

  /** `end_dict.get(...)`: the last end of the given project and file, since
      a later dict entry replaces an earlier one. */
  function EndFor(ends: seq<ResolvedUrn>, project: string, fileName: string): (r: Option<ResolvedUrn>)
    ensures r.None? <==> forall e :: e in ends ==> (e.project, e.fileName) != (project, fileName)
    ensures r.Some? ==> r.value in ends && (r.value.project, r.value.fileName) == (project, fileName)
    decreases |ends|
  {
    if |ends| == 0 then None
    else
      var last := ends[|ends| - 1];
      var front := ends[..|ends| - 1];
      assert forall e :: e in ends <==> e in front || e == last;
      if (last.project, last.fileName) == (project, fileName) then Some(last)
      else EndFor(front, project, fileName)
  }

  /** The end chosen is the last of its project and file. */
  lemma {:induction false} EndForIsLast(ends: seq<ResolvedUrn>, project: string, fileName: string)
    requires EndFor(ends, project, fileName).Some?
    ensures exists k :: (0 <= k < |ends| && ends[k] == EndFor(ends, project, fileName).value
      && forall j :: k < j < |ends| ==> (ends[j].project, ends[j].fileName) != (project, fileName))
    decreases |ends|
  {
    var last := ends[|ends| - 1];
    var front := ends[..|ends| - 1];
    if (last.project, last.fileName) != (project, fileName) {
      EndForIsLast(front, project, fileName);
      var k :| 0 <= k < |front| && front[k] == EndFor(front, project, fileName).value
        && forall j :: k < j < |front| ==> (front[j].project, front[j].fileName) != (project, fileName);
      assert ends[k] == front[k];
      forall j | k < j < |ends| ensures (ends[j].project, ends[j].fileName) != (project, fileName) {
        if j < |front| { assert ends[j] == front[j]; }
      }
    } else {
      assert ends[|ends| - 1] == EndFor(ends, project, fileName).value;
    }
  }

  /** The ranges of `resolve_range`: each start, in order, paired with the
      end of the same project and file, when there is one. */
  function PairRanges(starts: seq<ResolvedUrn>, ends: seq<ResolvedUrn>): (r: seq<Resolution>)
    ensures |r| <= |starts|
    ensures forall x :: x in r ==> (x.Range? && x.range.start in starts && x.range.end in ends
      && EndFor(ends, x.range.start.project, x.range.start.fileName) == Some(x.range.end))
    ensures forall s :: s in starts && EndFor(ends, s.project, s.fileName).Some? ==>
      Range(ResolvedUrnRange(s, EndFor(ends, s.project, s.fileName).value)) in r
  {
    if |starts| == 0 then []
    else
      var s := starts[0];
      var t := PairRanges(starts[1..], ends);
      assert forall x :: x in starts <==> x == s || x in starts[1..];
      match EndFor(ends, s.project, s.fileName)
      case None => t
      case Some(e) => [Range(ResolvedUrnRange(s, e))] + t
  }

  function Singles(rs: seq<ResolvedUrn>): (r: seq<Resolution>)
    ensures |r| == |rs| && forall i :: 0 <= i < |rs| ==> r[i] == Single(rs[i])
  {
    seq(|rs|, i requires 0 <= i < |rs| => Single(rs[i]))
  }

  /** What `resolve_range` returns. */
  function ResolveRangeSpec(rows: seq<RefDb.MappingRow>, rangedUrn: string): seq<Resolution>
  {
    var q := Qualifier(rangedUrn);
    match RangeEndsOf(q.0)
    case None => Singles(Resolve(rows, Requalify(q.0, q.1)))
    case Some(ends) =>
      var starts := Resolve(rows, Requalify(ends.0, q.1));
      var finishes := Resolve(rows, Requalify(ends.1, q.1));
      if |starts| == 0 || |finishes| == 0 then [] else PairRanges(starts, finishes)
  }

  /** A ranged URN yields one range per start that has an end in the same
      project and file, and nothing else. */
  lemma RangedResolvesToPairs(rows: seq<RefDb.MappingRow>, rangedUrn: string, ends: (string, string))
    requires RangeEndsOf(Qualifier(rangedUrn).0) == Some(ends)
    ensures var spec := Qualifier(rangedUrn).1;
      var starts := Resolve(rows, Requalify(ends.0, spec));
      var finishes := Resolve(rows, Requalify(ends.1, spec));
      var r := ResolveRangeSpec(rows, rangedUrn);
      && (forall x :: x in r ==> (x.Range? && x.range.start in starts && x.range.end in finishes
        && x.range.start.project == x.range.end.project && x.range.start.fileName == x.range.end.fileName))
      && (forall s, e :: s in starts && e in finishes && s.project == e.project && s.fileName == e.fileName ==>
        exists x :: x in r && x.Range? && x.range.start == s)
  {
    var spec := Qualifier(rangedUrn).1;
    var starts := Resolve(rows, Requalify(ends.0, spec));
    var finishes := Resolve(rows, Requalify(ends.1, spec));
    var r := ResolveRangeSpec(rows, rangedUrn);
    if |starts| > 0 && |finishes| > 0 {
      assert r == PairRanges(starts, finishes);
      forall s, e | s in starts && e in finishes && s.project == e.project && s.fileName == e.fileName
        ensures exists x :: x in r && x.Range? && x.range.start == s {
        var x := Range(ResolvedUrnRange(s, EndFor(finishes, s.project, s.fileName).value));
        assert x in r;
      }
    }
  }

  /** `resolve_range`. */
  method ResolveRange(rows: seq<RefDb.MappingRow>, rangedUrn: string) returns (r: seq<Resolution>)
    ensures r == ResolveRangeSpec(rows, rangedUrn)
  {
    var q := Qualifier(rangedUrn);
    var parts := PyStr.Split(q.0, '/');
    if |parts| < 2 {
      return Singles(Resolve(rows, Requalify(q.0, q.1)));
    }
    var idx := FindRangeStart(parts);
    if idx.None? {
      return Singles(Resolve(rows, Requalify(q.0, q.1)));
    }
    var rp := RangeParts(parts, idx.value);
    var startUrn := PyStr.Join(rp.0, "/");
    var endUrn := PyStr.Join(rp.1, "/");
    var starts := Resolve(rows, Requalify(startUrn, q.1));
    var finishes := Resolve(rows, Requalify(endUrn, q.1));
    if |starts| == 0 || |finishes| == 0 {
      return [];
    }
    r := PairRanges(starts, finishes);
  }

  lemma {:induction false} SelectMappingsSamePick(rows: seq<RefDb.MappingRow>, f: RefDb.MappingRow -> bool, g: RefDb.MappingRow -> bool)
    requires forall row :: f(row) == g(row)
    ensures RefDb.SelectMappings(rows, f) == RefDb.SelectMappings(rows, g)
  {
    if |rows| > 0 { SelectMappingsSamePick(rows[1..], f, g); }
  }

  /** A URN that is not a range resolves exactly as `resolve` resolves it,
      as long as it holds at most one `@` (an empty specifier is dropped and
      then means "any project", which is what the lookup made of it). */
  lemma UnrangedResolvesDirectly(rows: seq<RefDb.MappingRow>, urn: string)
    requires RangeEndsOf(Qualifier(urn).0) == None && '@' !in Qualifier(urn).0
    ensures ResolveRangeSpec(rows, urn) == Singles(Resolve(rows, urn))
  {
    var q := Qualifier(urn);
    if q.1.Some? && q.1.value == "" {
      assert Qualifier(q.0) == (q.0, None);
      SelectMappingsSamePick(rows, RefDb.MatchMapping(Some(q.0), q.1), RefDb.MatchMapping(Some(q.0), None));
    }
  }

  // ---------------------------------------------------------------------
  // Priorities

  /** `_project_name`: a range is placed by the project of its start. */
  function ProjectName(c: Candidate): string
  {
    match c
    case UrnCandidate(u) => u.project
    case RangeCandidate(r) => r.start.project
    case ReferenceCandidate(f) => f.project
  }

  /** `dict(zip(project_priority, range(...))).get(name)`: a name listed
      twice keeps its later index. */
  function PriorityOf(priority: seq<string>, name: string): (r: Option<nat>)
    ensures r.None? <==> name !in priority
    ensures r.Some? ==> (r.value < |priority| && priority[r.value] == name
      && forall j :: r.value < j < |priority| ==> priority[j] != name)
    decreases |priority|
  {
    if |priority| == 0 then None
    else if priority[|priority| - 1] == name then Some(|priority| - 1)
    else
      var front := priority[..|priority| - 1];
      assert forall x :: x in priority <==> x in front || x == priority[|priority| - 1];
      PriorityOf(front, name)
  }

  function Listed(priority: seq<string>): Candidate -> bool
  {
    (c: Candidate) => ProjectName(c) in priority
  }

  function Rank(priority: seq<string>): Candidate -> int
  {
    (c: Candidate) => match PriorityOf(priority, ProjectName(c)) case Some(k) => k case None => 0
  }

  datatype Prioritized = Best(best: Candidate) | All(all: seq<Candidate>)

  /** The candidates whose project is listed, stably sorted by priority. */
  function Ranked(items: seq<Candidate>, priority: seq<string>): seq<Candidate>
  {
    Ordering.SortByKey(Seqs.Filter(items, Listed(priority)), Rank(priority))
  }

  /** `prioritize_range`: None when no candidate's project is listed;
      otherwise the first candidate of the best-ranked project, or all listed
      candidates in priority order. */
  function PrioritizeRange(items: seq<Candidate>, priority: seq<string>, returnAll: bool): (r: Option<Prioritized>)
    ensures r.Some? ==> (r.value.All? <==> returnAll)
    ensures r.Some? && returnAll ==>
      Ordering.SortedByKey(r.value.all, Rank(priority))
      && multiset(r.value.all) == multiset(Seqs.Filter(items, Listed(priority)))
  {
    var sorted := Ranked(items, priority);
    if |sorted| > 0 then Some(if returnAll then All(sorted) else Best(sorted[0])) else None
  }

  /** The ranked candidates are exactly those whose project is listed. */
  lemma RankedMembers(items: seq<Candidate>, priority: seq<string>)
    ensures forall c :: c in Ranked(items, priority) <==> c in items && ProjectName(c) in priority
  {
    var listed := Seqs.Filter(items, Listed(priority));
    var sorted := Ranked(items, priority);
    forall c ensures c in sorted <==> c in listed {
      assert c in sorted <==> c in multiset(sorted);
      assert c in listed <==> c in multiset(listed);
    }
  }

  /** Nothing is returned exactly when no candidate's project is listed. */
  lemma PrioritizeRangeNone(items: seq<Candidate>, priority: seq<string>, returnAll: bool)
    ensures PrioritizeRange(items, priority, returnAll).None? <==> forall c :: c in items ==> ProjectName(c) !in priority
  {
    RankedMembers(items, priority);
    var sorted := Ranked(items, priority);
    if |sorted| > 0 {
      assert sorted[0] in sorted;
    }
  }

  /** Otherwise one listed candidate whose project ranks no lower than that
      of any other listed candidate. */
  lemma PrioritizeRangeBest(items: seq<Candidate>, priority: seq<string>)
    requires PrioritizeRange(items, priority, false).Some?
    ensures var r := PrioritizeRange(items, priority, false).value;
      && r.Best?
      && r.best in items && ProjectName(r.best) in priority
      && forall c :: c in items && ProjectName(c) in priority ==> Rank(priority)(r.best) <= Rank(priority)(c)
  {
    RankedMembers(items, priority);
    var sorted := Ranked(items, priority);
    assert sorted[0] in sorted;
    forall c | c in items && ProjectName(c) in priority ensures Rank(priority)(sorted[0]) <= Rank(priority)(c) {
      var k :| 0 <= k < |sorted| && sorted[k] == c;
    }
  }

  /** The best candidate is the first, in input order, of the best-ranked
      project: `sorted` is stable. */
  lemma PrioritizeRangeStable(items: seq<Candidate>, priority: seq<string>)
    requires PrioritizeRange(items, priority, false).Some?
    ensures var listed := Seqs.Filter(items, Listed(priority));
      |listed| > 0 && PrioritizeRange(items, priority, false).value.best == listed[Ordering.FirstMinIndex(listed, Rank(priority))]
  {
    Ordering.SortByKeyHead(Seqs.Filter(items, Listed(priority)), Rank(priority));
  }

  /** `get_path_from_urn`: the file under the project directory, the same
      path the XML cache uses for that project and file. */
  function GetPathFromUrn(projectDirectory: Cache.Path, u: ResolvedUrn): (r: Cache.Path)
    ensures |r| == |projectDirectory| + 2 && r[..|projectDirectory|] == projectDirectory
    ensures r[|projectDirectory|] == u.project && r[|projectDirectory| + 1] == u.fileName
  {
    Cache.PathOfFile(projectDirectory, u.project, u.fileName)
  }
}
